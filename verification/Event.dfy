/**
 Events as a step system: a set of flags, threads waiting for all or any of theirs, and the wake loop
 of `rt_event_send`.  The 32-bit flag words are modelled as sets of bit numbers.
 */
module Event {
  import opened Common
  import opened Waiting

  type Bits = set<nat>

  /** RT_EVENT_FLAG_AND, RT_EVENT_FLAG_OR, RT_EVENT_FLAG_CLEAR */
  datatype Options = Options(all: bool, any: bool, clear: bool)

  datatype Place = Outside | Waiting

  /**
   `eventSet` and `eventInfo` are the thread fields that hold a waiter's request, the first also what
   it received.  `asked` is a history variable: the request of each thread's last call.
   */
  datatype State = State(
    set_: Bits, flag: Flag, queue: seq<Tid>, prio: map<Tid, nat>,
    eventSet: map<Tid, Bits>, eventInfo: map<Tid, Options>,
    place: map<Tid, Place>, error: map<Tid, Err>, timers: set<Tid>, asked: map<Tid, Bits>)

  datatype Action =
    | Send(bits: Bits)
    | Recv(t: Tid, bits: Bits, opt: Options, timeout: int)
    | Continue(t: Tid)
    | Timeout(t: Tid)
    | Reset

  datatype Output = Received(t: Tid, bits: Bits) | Refused(error: Err) | Blocked | Quiet

  /** The test that both `rt_event_send` and `rt_event_recv` make; AND wins over OR. */
  predicate Satisfied(flags: Bits, want: Bits, opt: Options) {
    if opt.all then flags * want == want
    else opt.any && flags * want != {}
  }

  /** The immediate path of `rt_event_recv`: what is received, and the flags left. */
  function Immediate(flags: Bits, want: Bits, opt: Options): (Bits, Bits) {
    (flags * want, if opt.clear then flags - want else flags)
  }

  /** The waking path of `rt_event_send` for one satisfied waiter. */
  function WakeOne(flags: Bits, want: Bits, opt: Options): (Bits, Bits) {
    var got := if opt.all then want else want * flags;
    (got, if opt.clear then flags - got else flags)
  }

  /** Being woken gives the same bits, and clears the same bits, as receiving at once. */
  lemma WakingIsReceiving(flags: Bits, want: Bits, opt: Options)
    requires Satisfied(flags, want, opt)
    ensures WakeOne(flags, want, opt) == Immediate(flags, want, opt)
  {
    assert want * flags == flags * want;
    assert flags - flags * want == flags - want;
  }

  /** The wake loop: flags left, threads left waiting, what each thread received or still wants. */
  datatype Pass = Pass(flags: Bits, left: seq<Tid>, eventSet: map<Tid, Bits>)

  function WakePass(flags: Bits, q: seq<Tid>, eventSet: map<Tid, Bits>, info: map<Tid, Options>): Pass
    requires forall t :: t in q ==> t in eventSet && t in info
  {
    if q == [] then Pass(flags, [], eventSet)
    else
      var t := q[0];
      assert t in q;
      if Satisfied(flags, eventSet[t], info[t]) then
        var (got, flags') := WakeOne(flags, eventSet[t], info[t]);
        WakePass(flags', q[1..], eventSet[t := got], info)
      else
        var p := WakePass(flags, q[1..], eventSet, info);
        p.(left := [t] + p.left)
  }

  /** Flags only shrink in the loop, so a thread passed over stays unsatisfied. */
  lemma Shrinking(flags: Bits, less: Bits, want: Bits, opt: Options)
    requires less <= flags && Satisfied(less, want, opt)
    ensures Satisfied(flags, want, opt)
  {
  }

  lemma {:induction false} WakePassFacts(flags: Bits, q: seq<Tid>, eventSet: map<Tid, Bits>, info: map<Tid, Options>)
    requires NoDup(q) && forall t :: t in q ==> t in eventSet && t in info
    ensures var p := WakePass(flags, q, eventSet, info);
            && p.flags <= flags && p.eventSet.Keys == eventSet.Keys && NoDup(p.left)
            && (forall t :: t in p.left ==>
                  t in q && p.eventSet[t] == eventSet[t] && !Satisfied(p.flags, eventSet[t], info[t]))
            && (forall t :: t in eventSet && t !in q ==> p.eventSet[t] == eventSet[t])
            && (forall t :: t in q && t !in p.left ==> Granted(p.eventSet[t], eventSet[t], info[t]))
  {
    if q != [] {
      var t := q[0];
      assert q == [t] + q[1..];
      assert t !in q[1..];
      if Satisfied(flags, eventSet[t], info[t]) {
        var (got, flags') := WakeOne(flags, eventSet[t], info[t]);
        WakePassFacts(flags', q[1..], eventSet[t := got], info);
      } else {
        WakePassFacts(flags, q[1..], eventSet, info);
        var p := WakePass(flags, q[1..], eventSet, info);
        if Satisfied(p.flags, eventSet[t], info[t]) { Shrinking(flags, p.flags, eventSet[t], info[t]); }
      }
    }
  }

  /** What a waiter may be handed: all it asked for, or some of it. */
  predicate Granted(got: Bits, want: Bits, opt: Options) {
    if opt.all then got == want else opt.any && got != {} && got <= want
  }

  /** The loop, as the waiters' receives retried one after the other in list order. */
  function RetryEach(flags: Bits, q: seq<Tid>, eventSet: map<Tid, Bits>, info: map<Tid, Options>): Pass
    requires forall t :: t in q ==> t in eventSet && t in info
  {
    if q == [] then Pass(flags, [], eventSet)
    else
      var t := q[0];
      assert t in q;
      if Satisfied(flags, eventSet[t], info[t]) then
        var (got, flags') := Immediate(flags, eventSet[t], info[t]);
        RetryEach(flags', q[1..], eventSet[t := got], info)
      else
        var p := RetryEach(flags, q[1..], eventSet, info);
        p.(left := [t] + p.left)
  }

  lemma {:induction false} SendRetriesEachReceive(flags: Bits, q: seq<Tid>, eventSet: map<Tid, Bits>,
                                                  info: map<Tid, Options>)
    requires forall t :: t in q ==> t in eventSet && t in info
    ensures WakePass(flags, q, eventSet, info) == RetryEach(flags, q, eventSet, info)
  {
    if q != [] {
      var t := q[0];
      assert t in q;
      if Satisfied(flags, eventSet[t], info[t]) {
        WakingIsReceiving(flags, eventSet[t], info[t]);
        var (got, flags') := WakeOne(flags, eventSet[t], info[t]);
        SendRetriesEachReceive(flags', q[1..], eventSet[t := got], info);
      } else {
        SendRetriesEachReceive(flags, q[1..], eventSet, info);
      }
    }
  }

  // ---- The steps ----

  predicate WellFormed(s: State) {
    && s.prio.Keys == s.eventSet.Keys == s.eventInfo.Keys == s.place.Keys == s.error.Keys == s.asked.Keys
    && Known(s.queue, s.prio)
  }

  /** `rt_event_send` */
  function SendStep(s: State, bits: Bits): (State, Output)
    requires WellFormed(s)
  {
    if bits == {} then (s, Refused(ERROR))
    else
      var p := WakePass(s.set_ + bits, s.queue, s.eventSet, s.eventInfo);
      (s.(set_ := p.flags, queue := p.left, eventSet := p.eventSet,
          timers := (set t | t in s.timers && (t !in s.queue || t in p.left))), Quiet)
  }

  /** `rt_event_recv`, up to its `rt_schedule` or its return. */
  function RecvStep(s: State, t: Tid, bits: Bits, opt: Options, timeout: int): (State, Output)
    requires WellFormed(s) && t in s.prio
  {
    if bits == {} then (s, Refused(ERROR))
    else if Satisfied(s.set_, bits, opt) then
      (s.(set_ := Immediate(s.set_, bits, opt).1, error := s.error[t := EOK], asked := s.asked[t := bits]),
       Received(t, Immediate(s.set_, bits, opt).0))
    else if timeout == 0 then (s.(error := s.error[t := ETIMEOUT], asked := s.asked[t := bits]), Refused(ETIMEOUT))
    else
      (s.(error := s.error[t := EOK], eventSet := s.eventSet[t := bits], eventInfo := s.eventInfo[t := opt],
          queue := Enqueue(s.queue, t, s.flag, s.prio), place := s.place[t := Waiting],
          timers := if timeout > 0 then s.timers + {t} else s.timers - {t}, asked := s.asked[t := bits]), Blocked)
  }

  function ContinueStep(s: State, t: Tid): (State, Output)
    requires WellFormed(s) && t in s.prio
  {
    (s.(place := s.place[t := Outside]), if s.error[t] != EOK then Refused(s.error[t]) else Received(t, s.eventSet[t]))
  }

  function Wake(s: State, t: Tid, e: Err): State {
    s.(queue := Remove(s.queue, t), timers := s.timers - {t}, error := s.error[t := e])
  }

  /** `rt_event_control` reset */
  function ResetStep(s: State): State {
    s.(set_ := {}, queue := [], timers := (set t | t in s.timers && t !in s.queue),
       error := map t | t in s.error :: if t in s.queue then ERROR else s.error[t])
  }

  predicate Enabled(s: State, a: Action) {
    match a
    case Send(_) => true
    case Recv(t, _, opt, _) => t in s.place && s.place[t].Outside? && (opt.all || opt.any)
    case Continue(t) => t in s.place && s.place[t].Waiting? && t !in s.queue
    case Timeout(t) => t in s.timers
    case Reset => true
  }

  function Step(s: State, a: Action): (State, Output)
    requires WellFormed(s) && Enabled(s, a)
  {
    match a
    case Send(bits) => SendStep(s, bits)
    case Recv(t, bits, opt, timeout) => RecvStep(s, t, bits, opt, timeout)
    case Continue(t) => ContinueStep(s, t)
    case Timeout(t) => (Wake(s, t, ETIMEOUT), Quiet)
    case Reset => (ResetStep(s), Quiet)
  }

  // ---- The invariant ----

  /** No suspended thread's condition is met by the flags. */
  ghost predicate NoneMissed(flags: Bits, queue: seq<Tid>, eventSet: map<Tid, Bits>, info: map<Tid, Options>) {
    forall t :: t in queue ==> t in eventSet && t in info && !Satisfied(flags, eventSet[t], info[t])
  }

  ghost predicate Lists(queue: seq<Tid>, place: map<Tid, Place>, error: map<Tid, Err>, timers: set<Tid>) {
    && NoDup(queue)
    && (forall t :: t in queue ==> t in place && t in error && place[t].Waiting? && error[t] == EOK)
    && (forall t :: t in timers ==> t in queue)
  }

  /** A suspended thread still wants what it asked for. */
  ghost predicate Requests(queue: seq<Tid>, eventSet: map<Tid, Bits>, info: map<Tid, Options>, asked: map<Tid, Bits>) {
    forall t :: t in queue ==>
      t in eventSet && t in info && t in asked && eventSet[t] == asked[t] && (info[t].all || info[t].any)
  }

  /** A thread that was woken without an error was granted what it now holds. */
  ghost predicate Grants(queue: seq<Tid>, place: map<Tid, Place>, error: map<Tid, Err>,
                         eventSet: map<Tid, Bits>, info: map<Tid, Options>, asked: map<Tid, Bits>) {
    forall t | t in place && t in error && t in eventSet && t in info && t in asked ::
      (place[t].Waiting? && t !in queue && error[t] == EOK) ==> Granted(eventSet[t], asked[t], info[t])
  }

  ghost predicate Inv(s: State) {
    && WellFormed(s)
    && NoneMissed(s.set_, s.queue, s.eventSet, s.eventInfo)
    && Lists(s.queue, s.place, s.error, s.timers)
    && Requests(s.queue, s.eventSet, s.eventInfo, s.asked)
    && Grants(s.queue, s.place, s.error, s.eventSet, s.eventInfo, s.asked)
  }

  lemma {:induction false} SendKeeps(s: State, bits: Bits)
    requires Inv(s)
    ensures Inv(SendStep(s, bits).0)
  {
    WakePassFacts(s.set_ + bits, s.queue, s.eventSet, s.eventInfo);
  }

  /** Receiving at once only takes flags away. */
  lemma TakeKeeps(flags: Bits, queue: seq<Tid>, eventSet: map<Tid, Bits>, info: map<Tid, Options>, bits: Bits,
                  opt: Options)
    requires NoneMissed(flags, queue, eventSet, info)
    ensures NoneMissed(Immediate(flags, bits, opt).1, queue, eventSet, info)
  {
    var less := Immediate(flags, bits, opt).1;
    forall u | u in queue ensures !Satisfied(less, eventSet[u], info[u]) {
      if Satisfied(less, eventSet[u], info[u]) { Shrinking(flags, less, eventSet[u], info[u]); }
    }
  }

  lemma {:induction false} JoinKeeps(s: State, t: Tid, bits: Bits, opt: Options, timers: set<Tid>)
    requires Inv(s) && t in s.place && s.place[t].Outside? && (opt.all || opt.any) && !Satisfied(s.set_, bits, opt)
    requires timers <= s.timers + {t}
    ensures var q := Enqueue(s.queue, t, s.flag, s.prio);
            && Known(q, s.prio)
            && NoneMissed(s.set_, q, s.eventSet[t := bits], s.eventInfo[t := opt])
            && Lists(q, s.place[t := Waiting], s.error[t := EOK], timers)
            && Requests(q, s.eventSet[t := bits], s.eventInfo[t := opt], s.asked[t := bits])
            && Grants(q, s.place[t := Waiting], s.error[t := EOK], s.eventSet[t := bits], s.eventInfo[t := opt],
                      s.asked[t := bits])
  {
    hide Enqueue, NoneMissed, Lists, Requests, Grants, Satisfied, NoDup, Known;
    var q := Enqueue(s.queue, t, s.flag, s.prio);
    Pieces(s);
    OutsideNotQueued(s, t);
    EnqueueMembers(s.queue, t, s.flag, s.prio);
    KnownJoined(s.queue, q, t, s.prio);
    MissedJoined(s.set_, s.queue, q, t, bits, opt, s.eventSet, s.eventInfo);
    ListsJoined(s.queue, q, t, s.place, s.error, s.timers, timers);
    RequestsJoined(s.queue, q, t, bits, opt, s.eventSet, s.eventInfo, s.asked);
    GrantsJoined(s.queue, q, t, bits, opt, s.place, s.error, s.eventSet, s.eventInfo, s.asked);
  }

  lemma Pieces(s: State)
    requires Inv(s)
    ensures WellFormed(s) && NoDup(s.queue)
    ensures NoneMissed(s.set_, s.queue, s.eventSet, s.eventInfo)
    ensures Lists(s.queue, s.place, s.error, s.timers)
    ensures Requests(s.queue, s.eventSet, s.eventInfo, s.asked)
    ensures Grants(s.queue, s.place, s.error, s.eventSet, s.eventInfo, s.asked)
  {
  }

  lemma OutsideNotQueued(s: State, t: Tid)
    requires Inv(s) && t in s.place && s.place[t].Outside?
    ensures t !in s.queue
  {
  }

  lemma KnownJoined(queue: seq<Tid>, q: seq<Tid>, t: Tid, prio: map<Tid, nat>)
    requires Known(queue, prio) && t in prio && forall u :: u in q <==> u in queue || u == t
    ensures Known(q, prio)
  {
  }

  lemma MissedJoined(flags: Bits, queue: seq<Tid>, q: seq<Tid>, t: Tid, bits: Bits, opt: Options,
                     eventSet: map<Tid, Bits>, info: map<Tid, Options>)
    requires NoneMissed(flags, queue, eventSet, info) && (forall u :: u in q <==> u in queue || u == t)
    requires (opt.all || opt.any) && !Satisfied(flags, bits, opt)
    ensures NoneMissed(flags, q, eventSet[t := bits], info[t := opt])
  {
    hide Satisfied;
  }

  lemma ListsJoined(queue: seq<Tid>, q: seq<Tid>, t: Tid, place: map<Tid, Place>, error: map<Tid, Err>,
                    timers: set<Tid>, timers': set<Tid>)
    requires Lists(queue, place, error, timers) && NoDup(q) && (forall u :: u in q <==> u in queue || u == t)
    requires timers' <= timers + {t}
    ensures Lists(q, place[t := Waiting], error[t := EOK], timers')
  {
    hide NoDup;
  }

  lemma RequestsJoined(queue: seq<Tid>, q: seq<Tid>, t: Tid, bits: Bits, opt: Options,
                       eventSet: map<Tid, Bits>, info: map<Tid, Options>, asked: map<Tid, Bits>)
    requires Requests(queue, eventSet, info, asked) && (forall u :: u in q <==> u in queue || u == t)
             && (opt.all || opt.any)
    ensures Requests(q, eventSet[t := bits], info[t := opt], asked[t := bits])
  {
  }

  lemma GrantsJoined(queue: seq<Tid>, q: seq<Tid>, t: Tid, bits: Bits, opt: Options, place: map<Tid, Place>,
                     error: map<Tid, Err>, eventSet: map<Tid, Bits>, info: map<Tid, Options>, asked: map<Tid, Bits>)
    requires Grants(queue, place, error, eventSet, info, asked) && (forall u :: u in q <==> u in queue || u == t)
    requires t in place && t in error && t in eventSet && t in info && t in asked
    ensures Grants(q, place[t := Waiting], error[t := EOK], eventSet[t := bits], info[t := opt], asked[t := bits])
  {
    hide Granted;
  }

  lemma OutsideKeeps(s: State, t: Tid, bits: Bits, e: Err)
    requires Inv(s) && t in s.place && s.place[t].Outside?
    ensures Lists(s.queue, s.place, s.error[t := e], s.timers)
    ensures Requests(s.queue, s.eventSet, s.eventInfo, s.asked[t := bits])
    ensures Grants(s.queue, s.place, s.error[t := e], s.eventSet, s.eventInfo, s.asked[t := bits])
  {
  }

  lemma RecvKeeps(s: State, t: Tid, bits: Bits, opt: Options, timeout: int)
    requires Inv(s) && Enabled(s, Recv(t, bits, opt, timeout))
    ensures Inv(RecvStep(s, t, bits, opt, timeout).0)
  {
    hide Enqueue, NoneMissed, Lists, Requests, Grants, Satisfied, Immediate;
    if bits != {} {
      if Satisfied(s.set_, bits, opt) {
        TakeKeeps(s.set_, s.queue, s.eventSet, s.eventInfo, bits, opt);
        OutsideKeeps(s, t, bits, EOK);
      } else if timeout == 0 {
        OutsideKeeps(s, t, bits, ETIMEOUT);
      } else {
        JoinKeeps(s, t, bits, opt, if timeout > 0 then s.timers + {t} else s.timers - {t});
      }
    }
  }

  lemma {:induction false} WakeKeeps(s: State, t: Tid, e: Err)
    requires Inv(s) && t in s.queue && e != EOK
    ensures Inv(Wake(s, t, e))
  {
    hide NoneMissed, Lists, Requests, Grants, NoDup, Remove, Known;
    Pieces(s);
    RemoveMembers(s.queue, t);
    FewerWait(s, Remove(s.queue, t));
    ListsWoken(s.queue, Remove(s.queue, t), t, e, s.place, s.error, s.timers);
    GrantsWoken(s.queue, Remove(s.queue, t), t, e, s.place, s.error, s.eventSet, s.eventInfo, s.asked);
    ErrorKnown(s, t);
  }

  lemma ErrorKnown(s: State, t: Tid)
    requires Inv(s) && t in s.queue
    ensures t in s.error
  {
  }

  lemma FewerWait(s: State, q: seq<Tid>)
    requires Inv(s) && forall u :: u in q ==> u in s.queue
    ensures Known(q, s.prio) && NoneMissed(s.set_, q, s.eventSet, s.eventInfo)
            && Requests(q, s.eventSet, s.eventInfo, s.asked)
  {
    hide Lists, Grants, Satisfied;
  }

  lemma ListsWoken(queue: seq<Tid>, q: seq<Tid>, t: Tid, e: Err, place: map<Tid, Place>, error: map<Tid, Err>,
                   timers: set<Tid>)
    requires Lists(queue, place, error, timers) && NoDup(q) && forall u :: u in q <==> u in queue && u != t
    ensures Lists(q, place, error[t := e], timers - {t})
  {
    hide NoDup;
  }

  lemma GrantsWoken(queue: seq<Tid>, q: seq<Tid>, t: Tid, e: Err, place: map<Tid, Place>, error: map<Tid, Err>,
                    eventSet: map<Tid, Bits>, info: map<Tid, Options>, asked: map<Tid, Bits>)
    requires Grants(queue, place, error, eventSet, info, asked) && e != EOK && t in error
    requires forall u :: u in q <==> u in queue && u != t
    ensures Grants(q, place, error[t := e], eventSet, info, asked)
  {
    hide Granted;
  }

  /** Every step of every interleaving leaves no suspended thread with its condition met. */
  lemma StepKeepsInv(s: State, a: Action)
    requires Inv(s) && Enabled(s, a)
    ensures Inv(Step(s, a).0)
  {
    match a
    case Send(bits) => SendKeeps(s, bits);
    case Recv(t, bits, opt, timeout) => RecvKeeps(s, t, bits, opt, timeout);
    case Continue(t) => hide Satisfied, NoDup, Granted;
    case Timeout(t) => WakeKeeps(s, t, ETIMEOUT);
    case Reset =>
  }

  // ---- Whole runs ----

  ghost predicate Initial(s: State) {
    && WellFormed(s) && s.set_ == {} && s.queue == [] && s.timers == {}
    && forall t :: t in s.place ==> s.place[t].Outside?
  }

  function Run(s: State, acts: seq<Action>): (State, seq<Output>)
    decreases |acts|
  {
    if acts == [] || !WellFormed(s) || !Enabled(s, acts[0]) then (s, [])
    else
      var (s1, out) := Step(s, acts[0]);
      var (s2, outs) := Run(s1, acts[1..]);
      (s2, [out] + outs)
  }

  lemma {:induction false} RunKeepsInv(s: State, acts: seq<Action>)
    requires Inv(s)
    ensures Inv(Run(s, acts).0)
    decreases |acts|
  {
    hide Step;
    if acts != [] && Enabled(s, acts[0]) {
      StepKeepsInv(s, acts[0]);
      RunKeepsInv(Step(s, acts[0]).0, acts[1..]);
    }
  }

  lemma Misses(flags: Bits, want: Bits, opt: Options)
    requires !Satisfied(flags, want, opt) && (opt.all || opt.any)
    ensures if opt.all then !(want <= flags) else flags !! want
  {
    if opt.all {
      assert want <= flags ==> flags * want == want;
    } else {
      assert forall b :: b in flags && b in want ==> b in flags * want;
    }
  }

  /** In every reachable state, a thread suspended for all of its flags misses one, and any other finds none of them. */
  lemma NoneMissedInAnyRun(s: State, acts: seq<Action>)
    requires Initial(s)
    ensures var s' := Run(s, acts).0;
            forall t :: t in s'.queue ==>
              t in s'.eventSet && t in s'.eventInfo &&
              if s'.eventInfo[t].all then !(s'.eventSet[t] <= s'.set_) else s'.set_ !! s'.eventSet[t]
  {
    RunKeepsInv(s, acts);
    var s' := Run(s, acts).0;
    forall t | t in s'.queue
      ensures t in s'.eventSet && t in s'.eventInfo
      ensures if s'.eventInfo[t].all then !(s'.eventSet[t] <= s'.set_) else s'.set_ !! s'.eventSet[t]
    {
      Pieces(s');
      Misses(s'.set_, s'.eventSet[t], s'.eventInfo[t]);
    }
  }

  /** Whatever a receive reports is all, or some, of what it asked for, whichever way it got it. */
  lemma ReceivedIsGranted(s: State, a: Action)
    requires Inv(s) && Enabled(s, a) && Step(s, a).1.Received?
    ensures var out := Step(s, a).1;
            match a
            case Recv(t, bits, opt, _) => out.t == t && Granted(out.bits, bits, opt)
            case Continue(t) => out.t == t && Granted(out.bits, s.asked[t], s.eventInfo[t])
            case _ => false
  {
    if a.Recv? { assert s.set_ * a.bits <= a.bits; }
  }
}
