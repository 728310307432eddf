/**
 What a mailbox answers to its callers, said without the functions that compute it: when a call succeeds, waits
 or is refused and with which error, whom it wakes, and, over whole runs, that the mails delivered are the values
 that were passed to the calls that succeeded.
 */
module MailboxCalls {
  import opened Common
  import opened Waiting
  import opened Mailbox

  // ---- One region ----

  /** Nobody but `t` and the threads of `woken` changes, and those lose their timers only. */
  ghost predicate OnlyMoves(s: State, s': State, t: Option<Tid>, woken: seq<Tid>) {
    && s'.size == s.size && s'.flag == s.flag && s'.prio == s.prio && s'.threads.Keys == s.threads.Keys
    && forall u :: u in s.threads && Some(u) != t ==>
         s'.threads[u] == if u in woken then s.threads[u].(timer := false) else s.threads[u]
  }

  /** The first of a list, if there is one. */
  function First(q: seq<Tid>): seq<Tid> {
    if q == [] then [] else [q[0]]
  }

  function Others(q: seq<Tid>): seq<Tid> {
    if q == [] then [] else q[1..]
  }

  /** A mail is stored last, and the first receiver that waits is woken without an error. */
  ghost predicate Stored(s: State, s': State, t: Option<Tid>, value: int) {
    && s'.queue == s.queue + [value] && s'.senders == s.senders && s'.receivers == Others(s.receivers)
    && OnlyMoves(s, s', t, First(s.receivers))
  }

  /** The oldest mail is taken, and the first sender that waits is woken without an error. */
  ghost predicate Taken(s: State, s': State, t: Tid) {
    && s.queue != [] && s'.queue == s.queue[1..]
    && s'.receivers == s.receivers && s'.senders == Others(s.senders)
    && OnlyMoves(s, s', Some(t), First(s.senders))
  }

  ghost predicate Unmoved(s: State, s': State, t: Tid) {
    && s'.queue == s.queue && s'.senders == s.senders && s'.receivers == s.receivers && OnlyMoves(s, s', Some(t), [])
  }

  /** `t` is out of its call. */
  predicate Out(s: State, t: Tid) {
    t in s.threads && s.threads[t].place == Idle
  }

  /** A send that may still wait for `timeout` ticks: negative for ever, zero not at all. */
  ghost predicate SendAnswered(s: State, t: Tid, value: int, timeout: int, s': State, out: Output) {
    if |s.queue| < s.size then
      out == Accepted(value) && Stored(s, s', Some(t), value) && Out(s', t)
    else if timeout == 0 then
      out == Refused(EFULL) && Unmoved(s, s', t) && Out(s', t)
    else
      && out == Blocked && s'.queue == s.queue && s'.receivers == s.receivers && OnlyMoves(s, s', Some(t), [])
      && t in s.prio && Known(s.senders, s.prio) && s'.senders == Enqueue(s.senders, t, s.flag, s.prio)
      && t in s'.threads && s'.threads[t] == Thread(Sending(value, timeout), EOK, timeout > 0)
  }

  ghost predicate RecvAnswered(s: State, t: Tid, timeout: int, s': State, out: Output) {
    if s.queue != [] then
      out == Delivered(s.queue[0]) && Taken(s, s', t) && Out(s', t)
    else if timeout == 0 then
      out == Refused(ETIMEOUT) && Unmoved(s, s', t) && Out(s', t)
    else
      && out == Blocked && s'.queue == s.queue && s'.senders == s.senders && OnlyMoves(s, s', Some(t), [])
      && t in s.prio && Known(s.receivers, s.prio) && s'.receivers == Enqueue(s.receivers, t, s.flag, s.prio)
      && t in s'.threads && s'.threads[t] == Thread(Receiving(timeout), EOK, timeout > 0)
  }

  /** What is left of a wait: all of it if it is for ever, and else the ticks not gone by yet. */
  function Left(timeout: int, elapsed: nat): int {
    if timeout <= 0 then timeout else if elapsed < timeout then timeout - elapsed else 0
  }

  /** The 32-bit subtraction gives that, unless so many ticks have gone by that it comes out positive again. */
  lemma RemainingIsLeft(timeout: int, elapsed: nat)
    requires timeout < 0x8000_0000 && elapsed < 0x1_0000_0000
    ensures Remaining(timeout, elapsed) == Left(timeout, elapsed) <==> timeout <= 0 || elapsed - timeout <= 0x8000_0000
  {
    if timeout > 0 && timeout < elapsed {
      assert (timeout - elapsed) % 0x1_0000_0000 == timeout - elapsed + 0x1_0000_0000;
    }
  }

  lemma WakesFirst(s: State, q: seq<Tid>)
    requires Shape(s) && (q == s.receivers || q == s.senders)
    ensures q != [] ==> q[0] in s.threads
    ensures var s' := WakeHead(s, q);
            && s'.queue == s.queue && OnlyMoves(s, s', None, First(q))
            && s'.receivers == (if q == s.receivers then Others(q) else s.receivers)
            && s'.senders == (if q == s.senders then Others(q) else s.senders)
  {
    hide NoDup;
    if q != [] {
      assert q[0] in q;
      assert q[0] !in s.receivers || q[0] !in s.senders;
      if q[0] !in s.receivers { NotIn(s.receivers, q[0]); }
      if q[0] !in s.senders { NotIn(s.senders, q[0]); }
    }
  }

  lemma SendLoopAnswers(s: State, t: Tid, value: int, timeout: int)
    requires Inv(s) && t in s.threads && !Queued(s, t)
    ensures SendAnswered(s, t, value, timeout, SendLoop(s, t, value, timeout).0, SendLoop(s, t, value, timeout).1)
  {
    hide NoDup, Enqueue, Remove, WakeHead;
    if |s.queue| < s.size {
      var s1 := s.(queue := s.queue + [value]);
      ShapeOfQueue(s, s1.queue);
      WakesFirst(s1, s1.receivers);
    }
  }

  lemma ShapeOfQueue(s: State, queue: seq<int>)
    requires Shape(s) && |queue| <= s.size
    ensures Shape(s.(queue := queue))
  {
  }

  lemma RecvLoopAnswers(s: State, t: Tid, timeout: int)
    requires Inv(s) && t in s.threads && !Queued(s, t)
    ensures RecvAnswered(s, t, timeout, RecvLoop(s, t, timeout).0, RecvLoop(s, t, timeout).1)
  {
    hide NoDup, Enqueue, Remove, WakeHead;
    if s.queue != [] {
      var s1 := s.(queue := s.queue[1..]);
      ShapeOfQueue(s, s1.queue);
      WakesFirst(s1, s1.senders);
    }
  }

  /** `rt_mb_send_wait` when it is called, and `rt_mb_send` from an interrupt routine. */
  lemma SendAnswers(s: State, t: Tid, value: int, timeout: int)
    requires Inv(s) && Enabled(s, Send(t, value, timeout)) && !Queued(s, t)
    ensures var (s', out) := Step(s, Send(t, value, timeout)); SendAnswered(s, t, value, timeout, s', out)
  {
    hide Inv, SendLoop;
    Unpack(s);
    if |s.queue| < s.size || timeout != 0 { SendLoopAnswers(s, t, value, timeout); }
  }

  lemma IsrAnswers(s: State, value: int)
    requires Inv(s)
    ensures var (s', out) := Step(s, SendFromIsr(value));
            if |s.queue| < s.size then out == Accepted(value) && Stored(s, s', None, value)
            else out == Refused(EFULL) && s' == s
  {
    hide NoDup, Remove, WakeHead;
    if |s.queue| < s.size {
      var s1 := s.(queue := s.queue + [value]);
      ShapeOfQueue(s, s1.queue);
      WakesFirst(s1, s1.receivers);
    }
  }

  /** `rt_mb_recv` when it is called. */
  lemma RecvAnswers(s: State, t: Tid, timeout: int)
    requires Inv(s) && Enabled(s, Recv(t, timeout)) && !Queued(s, t)
    ensures var (s', out) := Step(s, Recv(t, timeout)); RecvAnswered(s, t, timeout, s', out)
  {
    hide Inv, RecvLoop;
    Unpack(s);
    if s.queue != [] || timeout != 0 { RecvLoopAnswers(s, t, timeout); }
  }

  /** Either call after waking: its error, or the same again with the time that is left. */
  lemma ContinueAnswers(s: State, t: Tid, elapsed: nat)
    requires Inv(s) && Enabled(s, Continue(t, elapsed))
    ensures var (s', out) := Step(s, Continue(t, elapsed)); var th := s.threads[t];
            if th.error != EOK then out == Refused(th.error) && Unmoved(s, s', t) && Out(s', t)
            else match th.place
              case Sending(value, timeout) => SendAnswered(s, t, value, Remaining(timeout, elapsed), s', out)
              case Receiving(timeout) => RecvAnswered(s, t, Remaining(timeout, elapsed), s', out)
              case Idle => false
  {
    hide Inv, SendLoop, RecvLoop, Remaining, SendAnswered, RecvAnswered;
    Unpack(s);
    var th := s.threads[t];
    if th.error == EOK {
      match th.place
      case Sending(value, timeout) => SendLoopAnswers(s, t, value, Remaining(timeout, elapsed));
      case Receiving(timeout) => RecvLoopAnswers(s, t, Remaining(timeout, elapsed));
      case Idle =>
    }
  }

  /** A timeout, or another thread's `rt_thread_resume`, takes exactly `t` off its list; the timeout leaves an error. */
  lemma WakeAnswers(s: State, t: Tid, byTimeout: bool)
    requires Inv(s) && Enabled(s, if byTimeout then Timeout(t) else Resume(t))
    ensures var (s', out) := Step(s, if byTimeout then Timeout(t) else Resume(t));
            && out == Quiet && s'.queue == s.queue && OnlyMoves(s, s', Some(t), [])
            && (forall u :: u in s'.receivers <==> u in s.receivers && u != t)
            && (forall u :: u in s'.senders <==> u in s.senders && u != t)
            && s'.threads[t].place == s.threads[t].place && !s'.threads[t].timer
            && s'.threads[t].error == if byTimeout then ETIMEOUT else s.threads[t].error
  {
    hide NoDup, Remove;
    RemoveMembers(s.receivers, t);
    RemoveMembers(s.senders, t);
  }

  /** A reset gives all that wait an error and nobody else, and drops the mails. */
  lemma ResetAnswers(s: State)
    ensures var (s', out) := (ResetStep(s), Cleared);
            && s'.queue == [] && s'.receivers == [] && s'.senders == [] && s'.threads.Keys == s.threads.Keys
            && forall u :: u in s.threads ==>
                 s'.threads[u] == if u in s.receivers || u in s.senders
                                  then s.threads[u].(error := ERROR, timer := false) else s.threads[u]
  {
  }

  // ---- Whole runs, by the arguments of the calls ----

  /** The last call of each thread. */
  function Note(calls: map<Tid, Action>, a: Action): map<Tid, Action> {
    if a.Send? || a.Recv? then calls[a.t := a] else calls
  }

  /** A thread that waits still has what it was called with. */
  ghost predicate Remembers(s: State, calls: map<Tid, Action>) {
    forall t :: t in s.threads ==>
      match s.threads[t].place
      case Idle => true
      case Sending(value, _) => t in calls && calls[t].Send? && calls[t].value == value
      case Receiving(_) => t in calls && calls[t].Recv?
  }

  /** The value passed to the call that this step belongs to. */
  function Argument(calls: map<Tid, Action>, a: Action): int {
    match a
    case Send(_, value, _) => value
    case SendFromIsr(value) => value
    case Continue(t, _) => if t in calls && calls[t].Send? then calls[t].value else 0
    case _ => 0
  }

  /** The values passed to the sends that were accepted, in the order in which they were. */
  function Passed(calls: map<Tid, Action>, acts: seq<Action>, outs: seq<Output>): seq<int>
    decreases |acts|
  {
    if acts == [] || outs == [] then []
    else
      (if outs[0].Accepted? then [Argument(calls, acts[0])] else [])
      + Passed(Note(calls, acts[0]), acts[1..], outs[1..])
  }

  lemma IdleNotQueued(s: State, t: Tid)
    requires Inv(s) && t in s.threads && s.threads[t].place == Idle
    ensures !Queued(s, t)
  {
  }

  /** A step whose thread ends up outside or waiting with what it was called with. */
  lemma MovesRemember(s: State, s': State, t: Option<Tid>, woken: seq<Tid>, calls: map<Tid, Action>, a: Action)
    requires Remembers(s, calls) && OnlyMoves(s, s', t, woken) && (a.Send? || a.Recv? ==> t == Some(a.t))
    requires t.Some? && t.value in s'.threads ==>
             match s'.threads[t.value].place
             case Idle => true
             case Sending(value, _) =>
               t.value in Note(calls, a) && Note(calls, a)[t.value].Send? && Note(calls, a)[t.value].value == value
             case Receiving(_) => t.value in Note(calls, a) && Note(calls, a)[t.value].Recv?
    ensures Remembers(s', Note(calls, a))
  {
    forall u | u in s'.threads && Some(u) != t ensures s'.threads[u].place == s.threads[u].place {
    }
  }

  /** No step but its own changes what a thread in a call was called with, and a mail stored is the one passed. */
  lemma StepRemembers(s: State, a: Action, calls: map<Tid, Action>)
    requires Inv(s) && Enabled(s, a) && Remembers(s, calls)
    ensures var (s', out) := Step(s, a);
            Remembers(s', Note(calls, a)) && (out.Accepted? ==> out.value == Argument(calls, a))
  {
    hide Inv, Step, Remaining, Remembers;
    Unpack(s);
    RemembersAt(s, calls);
    hide Shape, NoLostWakeup;
    var s' := Step(s, a).0;
    match a
    case Send(t, value, timeout) =>
      IdleNotQueued(s, t);
      SendAnswers(s, t, value, timeout);
      MovesRemember(s, s', Some(t), if |s.queue| < s.size then First(s.receivers) else [], calls, a);
    case SendFromIsr(value) =>
      IsrAnswers(s, value);
      MovesRemember(s, s', None, if |s.queue| < s.size then First(s.receivers) else [], calls, a);
    case Recv(t, timeout) =>
      IdleNotQueued(s, t);
      RecvAnswers(s, t, timeout);
      MovesRemember(s, s', Some(t), if s.queue != [] then First(s.senders) else [], calls, a);
    case Continue(t, elapsed) =>
      ContinueAnswers(s, t, elapsed);
      var th := s.threads[t];
      var woken := if th.error != EOK then [] else if th.place.Sending? then
                     if |s.queue| < s.size then First(s.receivers) else []
                   else if s.queue != [] then First(s.senders) else [];
      MovesRemember(s, s', Some(t), woken, calls, a);
    case Timeout(t) =>
      WakeAnswers(s, t, true);
      MovesRemember(s, s', Some(t), [], calls, a);
    case Resume(t) =>
      WakeAnswers(s, t, false);
      MovesRemember(s, s', Some(t), [], calls, a);
    case _ => OthersRemember(s, a, calls);
  }

  lemma RemembersAt(s: State, calls: map<Tid, Action>)
    requires Remembers(s, calls)
    ensures forall t :: t in s.threads ==>
              && (s.threads[t].place.Sending? ==>
                    t in calls && calls[t].Send? && calls[t].value == s.threads[t].place.value)
              && (s.threads[t].place.Receiving? ==> t in calls && calls[t].Recv?)
  {
  }

  lemma OthersRemember(s: State, a: Action, calls: map<Tid, Action>)
    requires Inv(s) && Enabled(s, a) && Remembers(s, calls) && (a.ChangePriority? || a.Reset?)
    ensures Remembers(Step(s, a).0, Note(calls, a)) && !Step(s, a).1.Accepted?
  {
    ResetAnswers(s);
  }

  lemma {:induction false} PassedIsAccepted(s: State, acts: seq<Action>, calls: map<Tid, Action>)
    requires Inv(s) && Remembers(s, calls)
    ensures Passed(calls, acts, Run(s, acts).1) == AcceptedOf(Run(s, acts).1)
    decreases |acts|
  {
    hide Step, Inv, Remembers, Argument, Note;
    if acts != [] && WellFormed(s) && Enabled(s, acts[0]) {
      var (s1, out) := Step(s, acts[0]);
      StepRemembers(s, acts[0], calls);
      StepKeepsInv(s, acts[0]);
      PassedIsAccepted(s1, acts[1..], Note(calls, acts[0]));
      assert ([out] + Run(s1, acts[1..]).1)[1..] == Run(s1, acts[1..]).1;
    }
  }

  /** From a new mailbox: the mails delivered and those left are the values passed to the sends accepted, in order. */
  lemma FifoOfCalls(s: State, acts: seq<Action>)
    requires Initial(s) && Reset !in acts
    ensures var (s', outs) := Run(s, acts); Passed(map[], acts, outs) == DeliveredOf(outs) + s'.queue
  {
    InitialRemembers(s);
    hide Run, Inv, Remembers;
    PassedIsAccepted(s, acts, map[]);
    Mailbox.Fifo(s, acts);
    assert s.queue + AcceptedOf(Run(s, acts).1) == AcceptedOf(Run(s, acts).1);
  }

  lemma InitialRemembers(s: State)
    requires Initial(s)
    ensures Inv(s) && Remembers(s, map[])
  {
  }
}
