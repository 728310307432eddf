/**
 The message queue as its callers see it: whole messages instead of slots and bytes, and of each thread only what it
 was called with. Each step of the real queue, in which copies are made byte by byte outside the lock, is one step of
 this ideal one with the same answer; so every run is one of the ideal queue.
 */
module MessageIdeal {
  import opened Common
  import opened Waiting
  import opened MessageQueue

  /** `toCopy` and `toRead` count the bytes still to be copied; `error` is what a waiting thread returns, if any. */
  datatype Client =
    | Out
    | Sends(msg: Bytes, urgent: bool, toCopy: nat)
    | Waits(size: nat, timeout: int, error: Err)
    | Reads(message: Bytes, buffer: nat, toRead: nat)

  /** The messages in the order in which they will be received, and the receivers asleep in the order of waking. */
  datatype Ideal = Ideal(
    msgSize: nat, maxMsgs: nat, flag: Flag, msgs: seq<Bytes>, clients: map<Tid, Client>,
    asleep: seq<Tid>, timers: set<Tid>, prio: map<Tid, nat>)

  // ---- The ideal queue ----

  /** The threads whose message takes up room besides those in the queue. */
  function Busy(i: Ideal): set<Tid> {
    set t | t in i.clients && (i.clients[t].Sends? || i.clients[t].Reads?)
  }

  predicate Possible(i: Ideal, a: Action) {
    match a
    case Reserve(t, msg, _) => t in i.clients && i.clients[t].Out? && msg != []
    case CopyIn(t) => t in i.clients && i.clients[t].Sends? && i.clients[t].toCopy > 0
    case Link(t) => t in i.clients && i.clients[t].Sends? && i.clients[t].toCopy == 0
    case Recv(t, size, _) => t in i.clients && i.clients[t].Out? && size > 0
    case Continue(t, _) => t in i.clients && i.clients[t].Waits? && t !in i.asleep
    case CopyOut(t) => t in i.clients && i.clients[t].Reads? && i.clients[t].toRead > 0
    case Release(t) => t in i.clients && i.clients[t].Reads? && i.clients[t].toRead == 0
    case Timeout(t) => t in i.timers
    case Resume(t) => t in i.asleep
    case ChangePriority(t, _) => t in i.clients
    case Reset => true
  }

  function Become(i: Ideal, t: Tid, c: Client): Ideal {
    i.(clients := i.clients[t := c])
  }

  /** `t` is asleep no more. */
  function Wakes(i: Ideal, t: Tid): Ideal {
    i.(asleep := Remove(i.asleep, t), timers := i.timers - {t})
  }

  /** A receiver finds a message, or may not wait, or goes to sleep. */
  function Receives(i: Ideal, t: Tid, size: nat, timeout: int): Ideal
    requires t in i.prio && Known(i.asleep, i.prio)
  {
    if i.msgs != [] then
      Become(i.(msgs := i.msgs[1..]), t, Reads(i.msgs[0], size, Min(size, i.msgSize)))
    else if timeout == 0 then Become(i, t, Out)
    else
      var timers := if timeout > 0 then i.timers + {t} else i.timers - {t};
      Become(i.(asleep := Enqueue(i.asleep, t, i.flag, i.prio), timers := timers), t, Waits(size, timeout, EOK))
  }

  predicate ReceiveAnswer(i: Ideal, timeout: int, out: Output) {
    out == if i.msgs != [] then Taken(i.msgs[0]) else if timeout == 0 then Refused(ETIMEOUT) else Blocked
  }

  function Fails(c: Client, e: Err): Client {
    if c.Waits? then c.(error := e) else c
  }

  predicate Listed(i: Ideal) {
    i.prio.Keys == i.clients.Keys && Known(i.asleep, i.prio) && forall t :: t in i.timers ==> t in i.clients
  }

  function Next(i: Ideal, a: Action): Ideal
    requires Possible(i, a) && Listed(i)
  {
    match a
    case Reserve(t, msg, urgent) =>
      if |msg| <= i.msgSize && |i.msgs| + |Busy(i)| < i.maxMsgs then Become(i, t, Sends(msg, urgent, |msg|)) else i
    case CopyIn(t) => Become(i, t, i.clients[t].(toCopy := i.clients[t].toCopy - 1))
    case Link(t) =>
      var m := i.clients[t].msg;
      var i1 := Become(i.(msgs := if i.clients[t].urgent then [m] + i.msgs else i.msgs + [m]), t, Out);
      if i.asleep == [] then i1 else i1.(asleep := i.asleep[1..], timers := i.timers - {i.asleep[0]})
    case Recv(t, size, timeout) => Receives(i, t, size, timeout)
    case Continue(t, elapsed) =>
      var c := i.clients[t];
      if c.error != EOK then Become(i, t, Out) else Receives(i, t, c.size, Remaining(c.timeout, elapsed))
    case CopyOut(t) => Become(i, t, i.clients[t].(toRead := i.clients[t].toRead - 1))
    case Release(t) => Become(i, t, Out)
    case Timeout(t) => Wakes(Become(i, t, Fails(i.clients[t], ETIMEOUT)), t)
    case Resume(t) => Wakes(i, t)
    case ChangePriority(t, p) => i.(prio := i.prio[t := p])
    case Reset =>
      i.(msgs := [], asleep := [], timers := (set t | t in i.timers && t !in i.asleep),
         clients := map t | t in i.clients :: if t in i.asleep then Fails(i.clients[t], ERROR) else i.clients[t])
  }

  /** The buffer begins with the message, or with as much of it as fits. */
  predicate Holding(buffer: Bytes, msg: Bytes) {
    if |msg| <= |buffer| then buffer[..|msg|] == msg else buffer == msg[..|buffer|]
  }

  /** What the callers are told. */
  predicate Answer(i: Ideal, a: Action, out: Output)
    requires Possible(i, a)
  {
    match a
    case Reserve(t, msg, _) =>
      out == if |msg| > i.msgSize then Refused(ERROR)
             else if |i.msgs| + |Busy(i)| == i.maxMsgs then Refused(EFULL) else Quiet
    case Link(t) => out == Linked(i.clients[t].msg, i.clients[t].urgent)
    case Recv(t, _, timeout) => ReceiveAnswer(i, timeout, out)
    case Continue(t, elapsed) =>
      if i.clients[t].error != EOK then out == Refused(i.clients[t].error)
      else ReceiveAnswer(i, Remaining(i.clients[t].timeout, elapsed), out)
    case Release(t) =>
      && out.Delivered? && |out.buffer| == Min(i.clients[t].buffer, i.msgSize)
      && Holding(out.buffer, i.clients[t].message)
    case Reset => out == Cleared
    case _ => out == Quiet
  }

  /** All answers of a run, and where it leads; it stops at the first step that is not possible. */
  ghost predicate Answers(i: Ideal, acts: seq<Action>, outs: seq<Output>, last: Ideal)
    decreases |acts|
  {
    if acts == [] || !Possible(i, acts[0]) then outs == [] && last == i
    else Listed(i) && outs != [] && Answer(i, acts[0], outs[0]) && Answers(Next(i, acts[0]), acts[1..], outs[1..], last)
  }

  // ---- The real queue seen as the ideal one ----

  function ViewOf(p: Place, e: Err, sent: seq<Bytes>, msgSize: nat): Client
    requires PlaceOk(msgSize, |sent|, p)
  {
    match p
    case Idle => Out
    case Filling(_, msg, done, urgent) => Sends(msg, urgent, |msg| - done)
    case Waiting(size, timeout) => Waits(size, timeout, e)
    case Reading(x, size, buffer) => Reads(sent[x], size, Amount(msgSize, size) - |buffer|)
  }

  ghost function Clients(s: State): map<Tid, Client>
    requires WellFormed(s)
  {
    map t | t in s.place :: ViewOf(s.place[t], s.error[t], s.sent, s.msgSize)
  }

  ghost function View(s: State): Ideal
    requires WellFormed(s)
  {
    Ideal(s.msgSize, s.maxMsgs, s.flag, Messages(s), Clients(s), s.receivers, s.timers, s.prio)
  }

  /** Nothing of `u` that its callers see changes. */
  ghost predicate Keeps(s: State, s': State, u: Tid) {
    && u in s.place && u in s'.place && u in s.error && u in s'.error
    && s'.place[u] == s.place[u] && (s.place[u].Waiting? ==> s'.error[u] == s.error[u])
    && |s'.sent| == |s.sent|
    && (s.place[u].Reading? ==> s.place[u].slot < |s.sent| && s'.sent[s.place[u].slot] == s.sent[s.place[u].slot])
  }

  lemma ClientsSet(s: State, s': State, t: Tid)
    requires WellFormed(s) && WellFormed(s') && t in s.place && s'.msgSize == s.msgSize && s'.place.Keys == s.place.Keys
    requires forall u :: u in s.place && u != t ==> Keeps(s, s', u)
    ensures Clients(s') == Clients(s)[t := ViewOf(s'.place[t], s'.error[t], s'.sent, s.msgSize)]
  {
    forall u | u in s.place && u != t ensures Clients(s')[u] == Clients(s)[u] {
      assert Keeps(s, s', u);
    }
  }

  /** All slots are accounted for. */
  ghost predicate Full(s: State) {
    Total(s) == s.maxMsgs
  }

  lemma BusyView(s: State)
    requires WellFormed(s)
    ensures Busy(View(s)) == InFlight(s.place) && |View(s).msgs| == |s.queue|
    ensures Listed(View(s)) <==> forall t :: t in s.timers ==> t in s.place
  {
  }

  lemma RoomView(s: State)
    requires WellFormed(s) && Full(s)
    ensures s.free == [] <==> |View(s).msgs| + |Busy(View(s))| == s.maxMsgs
    ensures |View(s).msgs| + |Busy(View(s))| <= s.maxMsgs
  {
    BusyView(s);
  }

  lemma PossibleView(s: State, a: Action)
    requires Inv(s)
    ensures Enabled(s, a) <==> Possible(View(s), a)
  {
    hide Messages;
    Pieces(s);
    hide Owned, Intact, Lists, Awake, Inv;
  }

  lemma ListedView(s: State)
    requires Inv(s)
    ensures Listed(View(s))
  {
    BusyView(s);
    forall t | t in s.timers ensures t in s.place { TimerMeansWaiting(s, t); }
  }

  /** The real step is the ideal one, with the same answer. */
  ghost predicate Follows(s: State, a: Action)
    requires WellFormed(s) && Enabled(s, a)
  {
    var (s', out) := Step(s, a);
    && WellFormed(s') && Possible(View(s), a) && Listed(View(s))
    && View(s') == Next(View(s), a) && Answer(View(s), a, out)
  }

  lemma ReserveFollows(s: State, a: Action)
    requires Inv(s) && Full(s) && Enabled(s, a) && a.Reserve? && Possible(View(s), a) && Listed(View(s))
    ensures Follows(s, a)
  {
    StepKeepsInv(s, a);
    RoomView(s);
    hide Messages, Owned, Intact, Lists, Awake, Busy, InFlight;
    var s' := Step(s, a).0;
    if |a.msg| <= s.msgSize && s.free != [] {
      ClientsSet(s, s', a.t);
      SameMessages(s, s');
    }
  }

  lemma ClientAt(s: State, t: Tid)
    requires WellFormed(s) && t in s.place
    ensures t in Clients(s) && t in s.error && Clients(s)[t] == ViewOf(s.place[t], s.error[t], s.sent, s.msgSize)
  {
  }

  lemma InvWellFormed(s: State)
    requires Inv(s)
    ensures WellFormed(s) && forall t :: t in s.place ==> PlaceOk(s.msgSize, s.maxMsgs, s.place[t]) && t in s.error
    ensures |s.sent| == s.maxMsgs
  {
  }

  /** Only the place of `t` changes. */
  lemma PlaceMoved(s: State, s': State, t: Tid)
    requires Inv(s) && Inv(s') && t in s.place
    requires s'.msgSize == s.msgSize && s'.queue == s.queue && s'.sent == s.sent && s'.error == s.error
    requires t in s'.place && s'.place == s.place[t := s'.place[t]]
    ensures Messages(s') == Messages(s) && t in s.error && t in Clients(s)
    ensures Clients(s)[t] == ViewOf(s.place[t], s.error[t], s.sent, s.msgSize)
    ensures Clients(s') == Clients(s)[t := ViewOf(s'.place[t], s.error[t], s.sent, s.msgSize)]
  {
    hide Inv, Messages;
    InvWellFormed(s);
    InvWellFormed(s');
    hide WellFormed;
    ClientAt(s, t);
    forall u | u in s.place && u != t ensures Keeps(s, s', u) {
    }
    ClientsSet(s, s', t);
    SameMessages(s, s');
  }

  lemma CopyInFields(s: State, t: Tid)
    requires WellFormed(s) && Enabled(s, CopyIn(t))
    ensures var (s', out) := Step(s, CopyIn(t));
            && out == Quiet && s' == s.(data := s'.data, place := s'.place) && s'.place == s.place[t := s'.place[t]]
            && s'.place[t] == s.place[t].(done := s.place[t].done + 1)
  {
    hide WellFormed;
  }

  lemma CopyInFollows(s: State, t: Tid)
    requires Inv(s) && Enabled(s, CopyIn(t)) && Possible(View(s), CopyIn(t)) && Listed(View(s))
    ensures Follows(s, CopyIn(t))
  {
    hide Inv, Messages, Clients, WellFormed, Listed, PlaceOk, Step, Enabled, Receives, Wakes, Fails;
    InvWellFormed(s);
    StepKeepsInv(s, CopyIn(t));
    CopyInFields(s, t);
    var s' := Step(s, CopyIn(t)).0;
    InvWellFormed(s');
    PlaceMoved(s, s', t);
  }

  lemma CopyOutFields(s: State, t: Tid)
    requires WellFormed(s) && Enabled(s, CopyOut(t))
    ensures var (s', out) := Step(s, CopyOut(t));
            && out == Quiet && s' == s.(place := s'.place) && s'.place == s.place[t := s'.place[t]]
            && s'.place[t] == s.place[t].(buffer := s'.place[t].buffer)
            && |s'.place[t].buffer| == |s.place[t].buffer| + 1
  {
    hide WellFormed;
  }

  lemma CopyOutFollows(s: State, t: Tid)
    requires Inv(s) && Enabled(s, CopyOut(t)) && Possible(View(s), CopyOut(t)) && Listed(View(s))
    ensures Follows(s, CopyOut(t))
  {
    hide Inv, Messages, Clients, WellFormed, Listed, PlaceOk, Step, Enabled, Receives, Wakes, Fails;
    InvWellFormed(s);
    StepKeepsInv(s, CopyOut(t));
    CopyOutFields(s, t);
    var s' := Step(s, CopyOut(t)).0;
    InvWellFormed(s');
    PlaceMoved(s, s', t);
  }

  lemma WakeFirst(s: State)
    ensures WakeHead(s) == if s.receivers == [] then s
                           else s.(receivers := s.receivers[1..], timers := s.timers - {s.receivers[0]})
  {
  }

  /** Linking takes nothing from a thread that reads. */
  lemma LinkOthers(s: State, t: Tid)
    requires Inv(s) && Enabled(s, Link(t)) && WellFormed(LinkStep(s, t).0)
    ensures Clients(LinkStep(s, t).0) == Clients(s)[t := Out]
  {
    StepKeepsInv(s, Link(t));
    var s' := Step(s, Link(t)).0;
    InvWellFormed(s);
    InvWellFormed(s');
    LinkFields(s, t);
    forall u | u in s.place && u != t && s.place[u].Reading?
      ensures s'.sent[s.place[u].slot] == s.sent[s.place[u].slot]
    {
      MessageStable(s, Link(t), u);
    }
    hide Inv, WellFormed, LinkStep;
    forall u | u in s.place && u != t ensures Keeps(s, s', u) {
    }
    ClientsSet(s, s', t);
  }

  lemma LinkFields(s: State, t: Tid)
    requires WellFormed(s) && Enabled(s, Link(t))
    ensures var (s', out) := LinkStep(s, t);
            && s'.place == s.place[t := Idle] && s'.error == s.error && |s'.sent| == |s.sent|
            && s'.msgSize == s.msgSize && s'.maxMsgs == s.maxMsgs && s'.flag == s.flag && s'.prio == s.prio
            && s'.receivers == (if s.receivers == [] then [] else s.receivers[1..])
            && s'.timers == (if s.receivers == [] then s.timers else s.timers - {s.receivers[0]})
            && out == Linked(s.place[t].msg, s.place[t].urgent)
  {
    var p := s.place[t];
    hide WellFormed;
    WakeFirst(s.(queue := Linking(s.queue, p.slot, p.urgent), sent := s.sent[p.slot := p.msg],
                 place := s.place[t := Idle]));
  }

  lemma LinkFollows(s: State, t: Tid)
    requires Inv(s) && Enabled(s, Link(t)) && Possible(View(s), Link(t)) && Listed(View(s))
    ensures Follows(s, Link(t))
  {
    LinkMessages(s, t);
    LinkFields(s, t);
    LinkOthers(s, t);
    ClientAt(s, t);
    hide Inv, Messages, Clients, WellFormed, Listed, LinkStep, WakeHead;
  }

  lemma SentKnown(s: State, s': State)
    requires WellFormed(s) && WellFormed(s')
    ensures |s.sent| == s.maxMsgs && |s'.sent| == s'.maxMsgs && s'.place.Keys == s'.error.Keys
    ensures forall t :: t in s.place && s.place[t].Reading? ==> s.place[t].slot < s.maxMsgs
  {
    forall t | t in s.place && s.place[t].Reading? ensures s.place[t].slot < s.maxMsgs {
      assert PlaceOk(s.msgSize, s.maxMsgs, s.place[t]);
    }
  }

  lemma ListedParts(s: State)
    requires WellFormed(s) && Listed(View(s))
    ensures s.prio.Keys == s.place.Keys && Known(s.receivers, s.prio)
  {
  }

  lemma ReceiveFollows(s: State, t: Tid, size: nat, timeout: int)
    requires Inv(s) && t in s.place && Listed(View(s)) && (s.place[t].Idle? || s.place[t].Waiting?)
    requires WellFormed(RecvLoop(s, t, size, timeout).0)
    ensures var (s', out) := RecvLoop(s, t, size, timeout);
            View(s') == Receives(View(s), t, size, timeout) && ReceiveAnswer(View(s), timeout, out)
  {
    hide Inv, WellFormed, Messages, Clients, Enqueue, PlaceOk, Listed;
    InvWellFormed(s);
    ListedParts(s);
    var (s', out) := RecvLoop(s, t, size, timeout);
    SentKnown(s, s');
    forall u | u in s.place && u != t ensures Keeps(s, s', u) {
    }
    ClientsSet(s, s', t);
    NoMessages(s);
    if s.queue == [] {
      SameMessages(s, s');
    } else {
      FirstMessage(s, s');
    }
  }

  lemma NoMessages(s: State)
    requires WellFormed(s)
    ensures Messages(s) == [] <==> s.queue == []
  {
  }

  lemma FirstMessage(s: State, s': State)
    requires WellFormed(s) && WellFormed(s') && s.queue != [] && s'.queue == s.queue[1..] && s'.sent == s.sent
    ensures s.queue[0] < |s.sent| && Messages(s) != [] && Messages(s)[0] == s.sent[s.queue[0]]
    ensures Messages(s') == Messages(s)[1..]
  {
    assert s.queue[0] in s.queue;
    assert Messages(s) == [s.sent[s.queue[0]]] + Messages(s');
  }

  lemma RecvFollows(s: State, a: Action)
    requires Inv(s) && Enabled(s, a) && a.Recv? && Possible(View(s), a) && Listed(View(s))
    ensures Follows(s, a)
  {
    StepKeepsInv(s, a);
    hide Inv, RecvLoop, Messages, Enqueue;
    NoMessages(s);
    if s.queue == [] && a.timeout == 0 {
      assert Clients(s)[a.t := Out] == Clients(s);
    } else {
      ReceiveFollows(s, a.t, a.size, a.timeout);
    }
  }

  lemma ContinueFollows(s: State, a: Action)
    requires Inv(s) && Enabled(s, a) && a.Continue? && Possible(View(s), a) && Listed(View(s))
    ensures Follows(s, a)
  {
    hide Inv, WellFormed, Messages, Clients, Listed, PlaceOk, RecvLoop, Receives, ReceiveAnswer, Remaining;
    var t := a.t;
    StepKeepsInv(s, a);
    InvWellFormed(s);
    InvWellFormed(Step(s, a).0);
    ListedParts(s);
    ClientAt(s, t);
    if s.error[t] != EOK {
      PlaceMoved(s, Step(s, a).0, t);
    } else {
      ReceiveFollows(s, t, s.place[t].size, Remaining(s.place[t].timeout, a.elapsed));
    }
  }

  lemma ReleaseFollows(s: State, t: Tid)
    requires Inv(s) && Enabled(s, Release(t)) && Possible(View(s), Release(t)) && Listed(View(s))
    ensures Follows(s, Release(t))
  {
    hide Inv, WellFormed, Messages, Clients, Listed, PlaceOk;
    StepKeepsInv(s, Release(t));
    DeliveredBytes(s, t);
    InvWellFormed(s);
    ClientAt(s, t);
    var s' := Step(s, Release(t)).0;
    InvWellFormed(s');
    PlaceMoved(s, s', t);
  }

  /** Off its list, with or without an error. */
  lemma WakeFollows(s: State, t: Tid, e: Err)
    requires Inv(s) && t in s.receivers && t in s.place && s.place[t].Waiting?
    ensures var s' := Wake(s.(error := s.error[t := e]), t);
            && Inv(s') && t in Clients(s) && Messages(s') == Messages(s)
            && Clients(s') == Clients(s)[t := Fails(Clients(s)[t], e)]
  {
    WakeKeeps(s, t, e);
    InvWellFormed(s);
    ClientAt(s, t);
    hide Inv, Messages, Remove;
    var s' := Wake(s.(error := s.error[t := e]), t);
    InvWellFormed(s');
    hide WellFormed;
    ClientsSet(s, s', t);
    SameMessages(s, s');
  }

  lemma TimeoutFollows(s: State, t: Tid)
    requires Inv(s) && Enabled(s, Timeout(t)) && Possible(View(s), Timeout(t)) && Listed(View(s))
    ensures Follows(s, Timeout(t))
  {
    TimerMeansWaiting(s, t);
    WakeFollows(s, t, ETIMEOUT);
    InvWellFormed(s);
    InvWellFormed(Wake(s.(error := s.error[t := ETIMEOUT]), t));
    hide Inv, WellFormed, Messages, Clients, Listed, Remove;
  }

  lemma AsleepWaits(s: State, t: Tid)
    requires Inv(s) && t in s.receivers
    ensures t in s.place && s.place[t].Waiting? && t in s.error && s.error[t := s.error[t]] == s.error
  {
  }

  lemma ResumeFollows(s: State, t: Tid)
    requires Inv(s) && Enabled(s, Resume(t)) && Possible(View(s), Resume(t)) && Listed(View(s))
    ensures Follows(s, Resume(t))
  {
    AsleepWaits(s, t);
    WakeFollows(s, t, s.error[t]);
    InvWellFormed(s);
    InvWellFormed(Wake(s, t));
    ClientAt(s, t);
    assert Clients(s)[t := Clients(s)[t]] == Clients(s);
    hide Inv, WellFormed, Messages, Clients, Listed, Remove;
  }

  lemma PriorityFollows(s: State, t: Tid, p: nat)
    requires Inv(s) && Enabled(s, ChangePriority(t, p)) && Possible(View(s), ChangePriority(t, p)) && Listed(View(s))
    ensures Follows(s, ChangePriority(t, p))
  {
    var s' := Step(s, ChangePriority(t, p)).0;
    StepKeepsInv(s, ChangePriority(t, p));
    InvWellFormed(s);
    InvWellFormed(s');
    hide Inv, Messages;
    SameMessages(s, s');
    assert Clients(s') == Clients(s);
    hide WellFormed, Clients;
  }

  lemma ResetClients(s: State)
    requires Inv(s) && WellFormed(ResetStep(s))
    ensures Clients(ResetStep(s))
         == map t | t in Clients(s) :: if t in s.receivers then Fails(Clients(s)[t], ERROR) else Clients(s)[t]
  {
    InvWellFormed(s);
    forall u | u in s.receivers ensures u in s.place && s.place[u].Waiting? { AsleepWaits(s, u); }
    hide Inv, WellFormed, Reverse;
  }

  lemma ResetFollows(s: State)
    requires Inv(s) && Enabled(s, Reset) && Possible(View(s), Reset) && Listed(View(s))
    ensures Follows(s, Reset)
  {
    var s' := ResetStep(s);
    StepKeepsInv(s, Reset);
    InvWellFormed(s);
    InvWellFormed(s');
    ResetClients(s);
    NoMessages(s');
    hide Inv, WellFormed, Messages, Clients, Listed, Reverse, Fails;
  }

  /** Every step of the real queue is the step of the ideal one, with the same answer. */
  lemma StepFollows(s: State, a: Action)
    requires Inv(s) && Full(s) && Enabled(s, a)
    ensures Possible(View(s), a) && Follows(s, a)
  {
    PossibleView(s, a);
    ListedView(s);
    hide Inv, Full, Follows, View, Possible;
    match a
    case Reserve(t, msg, urgent) => ReserveFollows(s, a);
    case CopyIn(t) => CopyInFollows(s, t);
    case Link(t) => LinkFollows(s, t);
    case Recv(t, size, timeout) => RecvFollows(s, a);
    case Continue(t, elapsed) => ContinueFollows(s, a);
    case CopyOut(t) => CopyOutFollows(s, t);
    case Release(t) => ReleaseFollows(s, t);
    case Timeout(t) => TimeoutFollows(s, t);
    case Resume(t) => ResumeFollows(s, t);
    case ChangePriority(t, p) => PriorityFollows(s, t, p);
    case Reset => ResetFollows(s);
  }

  lemma StepFull(s: State, a: Action)
    requires WellFormed(s) && Enabled(s, a) && Full(s)
    ensures Full(Step(s, a).0)
  {
    StepConserves(s, a);
    assert Step(s, a).0.maxMsgs == s.maxMsgs;
  }

  /** So every run of the real queue is one of the ideal queue, answer by answer. */
  lemma {:induction false} RunFollows(s: State, acts: seq<Action>)
    requires Inv(s) && Full(s)
    ensures var (s', outs) := Run(s, acts); WellFormed(s') && Answers(View(s), acts, outs, View(s'))
    decreases |acts|
  {
    hide Full, Step, View, Next, Answer, Possible, Listed;
    InvWellFormed(s);
    if acts != [] {
      PossibleView(s, acts[0]);
      if Enabled(s, acts[0]) {
        var (s1, out) := Step(s, acts[0]);
        StepKeepsInv(s, acts[0]);
        StepFull(s, acts[0]);
        StepFollows(s, acts[0]);
        RunFollows(s1, acts[1..]);
        var outs := Run(s1, acts[1..]).1;
        assert ([out] + outs)[1..] == outs;
      }
    }
  }

  /** An ideal queue that nobody has used yet. */
  predicate Fresh(i: Ideal) {
    i.msgs == [] && i.asleep == [] && i.timers == {} && forall t :: t in i.clients ==> i.clients[t].Out?
  }

  lemma {:induction false} SetOfAll(q: seq<nat>, max: nat)
    requires NoDup(q) && forall x: nat :: x in q <==> x < max
    ensures |q| == max
    decreases max
  {
    if max == 0 {
      assert forall k :: 0 <= k < |q| ==> q[k] in q;
    } else {
      assert max - 1 in q;
      var k :| 0 <= k < |q| && q[k] == max - 1;
      var r := q[..k] + q[k + 1..];
      forall x: nat ensures x in r <==> x < max - 1 {
        if x in r { assert x in q && x != max - 1; }
        if x < max - 1 {
          assert x in q;
          var j :| 0 <= j < |q| && q[j] == x;
          assert r[if j < k then j else j - 1] == x;
        }
      }
      SetOfAll(r, max - 1);
    }
  }

  /** From `rt_mq_init`: after any run the callers have been told what an ideal queue tells them. */
  lemma IdealInAnyRun(s: State, acts: seq<Action>)
    requires Initial(s)
    ensures var (s', outs) := Run(s, acts); WellFormed(s') && Fresh(View(s)) && Answers(View(s), acts, outs, View(s'))
  {
    InitialInv(s);
    NoMessages(s);
    SetOfAll(s.free, s.maxMsgs);
    assert Full(s);
    hide Run, Inv, Full, Answers, Messages;
    RunFollows(s, acts);
  }
}
