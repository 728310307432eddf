/**
 What an event answers to its callers, in terms of the flags asked for and the flags there: when a receive is served,
 with what, and which flags it takes away; and, over whole runs and by the arguments of the calls, that nobody sleeps
 whose flags are there.
 */
module EventCalls {
  import opened Common
  import opened Waiting
  import opened Event

  /** All of `want` is there, or for OR any flag of it. */
  ghost predicate There(flags: Bits, want: Bits, opt: Options) {
    if opt.all then forall b :: b in want ==> b in flags else opt.any && exists b :: b in want && b in flags
  }

  lemma SatisfiedIsThere(flags: Bits, want: Bits, opt: Options)
    ensures Satisfied(flags, want, opt) <==> There(flags, want, opt)
  {
    if opt.all {
      if flags * want == want { forall b | b in want ensures b in flags { assert b in flags * want; } }
    } else if b :| b in want && b in flags {
      assert b in flags * want;
    }
  }

  /** A receive can be served exactly when some flags that are there may be handed out for it. */
  lemma SatisfiedIsGrantable(flags: Bits, want: Bits, opt: Options)
    requires want != {}
    ensures Satisfied(flags, want, opt) <==> exists got :: got <= flags && Granted(got, want, opt)
  {
    if Satisfied(flags, want, opt) {
      assert flags * want <= flags && Granted(flags * want, want, opt);
    }
    if got :| got <= flags && Granted(got, want, opt) {
      if !opt.all {
        var b :| b in got;
        assert b in flags * want;
      } else {
        assert flags * want == want;
      }
    }
  }

  /** What is received is what was asked for and is there; with CLEAR that much goes, and nothing else ever does. */
  ghost predicate Served(flags: Bits, want: Bits, opt: Options, got: Bits, flags': Bits) {
    && (forall b :: b in got <==> b in want && b in flags)
    && (forall b :: b in flags' <==> b in flags && !(opt.clear && b in want))
  }

  lemma ImmediateServes(flags: Bits, want: Bits, opt: Options)
    ensures Served(flags, want, opt, Immediate(flags, want, opt).0, Immediate(flags, want, opt).1)
  {
  }

  /** Nobody else's call moves on or is disturbed. */
  ghost predicate OthersWait(s: State, s': State, t: Tid) {
    && s'.flag == s.flag && s'.prio == s.prio
    && forall u :: u != t ==>
         && (u in s.place && u in s.error && u in s.eventSet && u in s.eventInfo ==>
              && u in s'.place && u in s'.error && u in s'.eventSet && u in s'.eventInfo
              && s'.place[u] == s.place[u] && s'.error[u] == s.error[u]
              && s'.eventSet[u] == s.eventSet[u] && s'.eventInfo[u] == s.eventInfo[u])
         && (u in s'.timers <==> u in s.timers)
  }

  /** A receive is refused for no flags at all, served when its flags are there, and else waits or may not. */
  lemma RecvAnswers(s: State, t: Tid, bits: Bits, opt: Options, timeout: int)
    requires Inv(s) && Enabled(s, Recv(t, bits, opt, timeout))
    ensures var (s', out) := Step(s, Recv(t, bits, opt, timeout));
            && OthersWait(s, s', t)
            && if bits == {} then out == Refused(ERROR) && s' == s
               else if There(s.set_, bits, opt) then
                 && out.Received? && out.t == t && Served(s.set_, bits, opt, out.bits, s'.set_)
                 && s'.queue == s.queue && s'.place == s.place
               else if timeout == 0 then
                 out == Refused(ETIMEOUT) && s'.set_ == s.set_ && s'.queue == s.queue && s'.place == s.place
               else
                 && out == Blocked && s'.set_ == s.set_
                 && t in s.prio && Known(s.queue, s.prio) && s'.queue == Enqueue(s.queue, t, s.flag, s.prio)
                 && t in s'.place && s'.place[t] == Waiting && t in s'.error && s'.error[t] == EOK
                 && t in s'.eventSet && s'.eventSet[t] == bits && t in s'.eventInfo && s'.eventInfo[t] == opt
                 && (t in s'.timers <==> timeout > 0)
  {
    hide Inv, Enqueue, Satisfied, There, Immediate, Served, WellFormed;
    Pieces(s);
    RecvKnown(s, t);
    SatisfiedIsThere(s.set_, bits, opt);
    ImmediateServes(s.set_, bits, opt);
    RecvOthers(s, t, bits, opt, timeout);
  }

  lemma RecvKnown(s: State, t: Tid)
    requires WellFormed(s) && t in s.place
    ensures t in s.prio && Known(s.queue, s.prio)
  {
  }

  lemma RecvOthers(s: State, t: Tid, bits: Bits, opt: Options, timeout: int)
    requires WellFormed(s) && t in s.prio
    ensures OthersWait(s, RecvStep(s, t, bits, opt, timeout).0, t)
  {
    hide Enqueue, Satisfied, Immediate;
  }

  /** A woken thread returns its error or the flags it was given. */
  lemma ContinueAnswers(s: State, t: Tid)
    requires Inv(s) && Enabled(s, Continue(t))
    ensures var (s', out) := Step(s, Continue(t));
            && out == (if s.error[t] != EOK then Refused(s.error[t]) else Received(t, s.eventSet[t]))
            && OthersWait(s, s', t) && s'.place == s.place[t := Outside]
            && s'.set_ == s.set_ && s'.queue == s.queue && s'.timers == s.timers
  {
    hide NoneMissed, Lists, Requests, Grants;
  }

  lemma TimeoutAnswers(s: State, t: Tid)
    requires Inv(s) && Enabled(s, Timeout(t))
    ensures var (s', out) := Step(s, Timeout(t));
            && out == Quiet && OthersWait(s, s', t) && s'.set_ == s.set_ && s'.place == s.place
            && (forall u :: u in s'.queue <==> u in s.queue && u != t)
            && t in s'.error && s'.error[t] == ETIMEOUT && t !in s'.timers
  {
    hide NoneMissed, Requests, Grants, NoDup, Remove;
    Pieces(s);
    RemoveMembers(s.queue, t);
  }

  lemma ResetAnswers(s: State)
    requires Inv(s)
    ensures var (s', out) := Step(s, Reset);
            && out == Quiet && s'.set_ == {} && s'.queue == [] && s'.place == s.place && s'.error.Keys == s.error.Keys
            && (forall u :: u in s.error ==> s'.error[u] == if u in s.queue then ERROR else s.error[u])
            && (forall u :: u in s'.timers <==> u in s.timers && u !in s.queue)
  {
  }

  // ---- Sending: each waiter in turn, on the flags that are left ----

  /** The flags when it is the turn of the `k`-th waiter. */
  ghost function FlagsAt(flags: Bits, q: seq<Tid>, want: map<Tid, Bits>, info: map<Tid, Options>, k: nat): Bits
    requires k <= |q| && forall t :: t in q ==> t in want && t in info
  {
    if k == 0 then flags
    else
      var t := q[k - 1];
      var before := FlagsAt(flags, q, want, info, k - 1);
      if There(before, want[t], info[t]) && info[t].clear then before - want[t] else before
  }

  /** Those whose flags are there when it is their turn get them, and all others are left as they were, in order. */
  ghost predicate ServedInTurn(flags: Bits, q: seq<Tid>, want: map<Tid, Bits>, info: map<Tid, Options>, p: Pass)
    requires forall t :: t in q ==> t in want && t in info
  {
    && p.flags == FlagsAt(flags, q, want, info, |q|) && p.eventSet.Keys == want.Keys
    && (forall k :: 0 <= k < |q| ==>
          var t, there := q[k], FlagsAt(flags, q, want, info, k);
          && (t in p.left <==> !There(there, want[t], info[t]))
          && (t !in p.left ==> t in p.eventSet && p.eventSet[t] == want[t] * there))
    && (forall t :: t in want && (t !in q || t in p.left) ==> t in p.eventSet && p.eventSet[t] == want[t])
    && (forall t :: t in p.left ==> t in q) && p.left == Keep(q, SetOf(p.left))
  }

  /** Those of `q` that are in `left`, in the order of `q`. */
  function Keep(q: seq<Tid>, left: set<Tid>): seq<Tid> {
    if q == [] then [] else (if q[0] in left then [q[0]] else []) + Keep(q[1..], left)
  }

  lemma {:induction false} KeepMore(q: seq<Tid>, left: set<Tid>, t: Tid)
    requires t !in q
    ensures Keep(q, left + {t}) == Keep(q, left)
  {
    if q != [] {
      assert q[0] in q;
      KeepMore(q[1..], left, t);
    }
  }

  function SetOf(q: seq<Tid>): set<Tid> {
    set t | t in q
  }

  lemma SetOfCons(x: Tid, r: seq<Tid>)
    ensures SetOf([x] + r) == SetOf(r) + {x} && (x in SetOf(r) <==> x in r)
  {
  }

  lemma KeepCons(q: seq<Tid>, left: set<Tid>)
    requires q != []
    ensures Keep(q, left) == if q[0] in left then [q[0]] + Keep(q[1..], left) else Keep(q[1..], left)
  {
  }

  lemma KeepFirst(q: seq<Tid>, less: seq<Tid>)
    requires q != [] && q[0] !in q[1..] && q[0] !in less && less == Keep(q[1..], SetOf(less))
    ensures less == Keep(q, SetOf(less))
    ensures [q[0]] + less == Keep(q, SetOf([q[0]] + less))
  {
    hide Keep, SetOf;
    SetOfCons(q[0], less);
    KeepCons(q, SetOf(less));
    KeepCons(q, SetOf(less) + {q[0]});
    KeepMore(q[1..], SetOf(less), q[0]);
  }

  lemma {:induction false} FlagsTail(flags: Bits, q: seq<Tid>, want: map<Tid, Bits>, info: map<Tid, Options>, k: nat)
    requires 0 < k <= |q| && forall t :: t in q ==> t in want && t in info
    ensures forall t :: t in q[1..] ==> t in q
    ensures FlagsAt(flags, q, want, info, k) == FlagsAt(FlagsAt(flags, q, want, info, 1), q[1..], want, info, k - 1)
  {
    hide There;
    if k > 1 {
      FlagsTail(flags, q, want, info, k - 1);
      assert q[k - 1] == q[1..][k - 2];
    }
  }

  lemma {:induction false} FlagsFrame(flags: Bits, q: seq<Tid>, want: map<Tid, Bits>, want': map<Tid, Bits>,
                                      info: map<Tid, Options>, k: nat)
    requires k <= |q| && forall t :: t in q ==> t in want && t in info && t in want' && want'[t] == want[t]
    ensures FlagsAt(flags, q, want', info, k) == FlagsAt(flags, q, want, info, k)
  {
    hide There;
    if k > 0 { FlagsFrame(flags, q, want, want', info, k - 1); }
  }

  /** The first waiter's turn leaves the flags for the second. */
  lemma FirstTurn(flags: Bits, q: seq<Tid>, want: map<Tid, Bits>, info: map<Tid, Options>)
    requires NoDup(q) && q != [] && forall t :: t in q ==> t in want && t in info
    ensures var t := q[0]; var rest := FlagsAt(flags, q, want, info, 1);
            if There(flags, want[t], info[t]) then
              WakePass(flags, q, want, info) == WakePass(rest, q[1..], want[t := want[t] * flags], info)
            else
              var p := WakePass(flags, q[1..], want, info);
              rest == flags && WakePass(flags, q, want, info) == p.(left := [t] + p.left)
  {
    var t := q[0];
    SatisfiedIsThere(flags, want[t], info[t]);
    hide There;
    if Satisfied(flags, want[t], info[t]) {
      WakingIsReceiving(flags, want[t], info[t]);
      assert flags * want[t] == want[t] * flags;
      assert FlagsAt(flags, q, want, info, 0) == flags;
    }
  }

  lemma RestKnown(q: seq<Tid>)
    requires NoDup(q) && q != []
    ensures NoDup(q[1..]) && q[0] !in q[1..] && forall t :: t in q <==> t == q[0] || t in q[1..]
  {
  }

  lemma {:induction false} Turn(flags: Bits, q: seq<Tid>, want: map<Tid, Bits>, info: map<Tid, Options>, k: nat)
    requires NoDup(q) && k < |q| && forall t :: t in q ==> t in want && t in info
    ensures var t, p, there := q[k], WakePass(flags, q, want, info), FlagsAt(flags, q, want, info, k);
            && (t in p.left <==> !There(there, want[t], info[t]))
            && t in p.eventSet && (t !in p.left ==> p.eventSet[t] == want[t] * there)
    decreases |q|
  {
    hide There, NoDup, WakePass, Satisfied, Granted, FlagsAt;
    RestKnown(q);
    FirstTurn(flags, q, want, info);
    WakePassFacts(flags, q, want, info);
    FlagsStart(flags, q, want, info);
    var t, rest := q[0], FlagsAt(flags, q, want, info, 1);
    var want1 := if There(flags, want[t], info[t]) then want[t := want[t] * flags] else want;
    WakePassFacts(rest, q[1..], want1, info);
    if k > 0 {
      assert q[k] == q[1..][k - 1] && q[k] in q[1..];
      FlagsTail(flags, q, want, info, k);
      FlagsFrame(rest, q[1..], want, want1, info, k - 1);
      Turn(rest, q[1..], want1, info, k - 1);
    }
  }

  lemma FlagsStart(flags: Bits, q: seq<Tid>, want: map<Tid, Bits>, info: map<Tid, Options>)
    requires forall t :: t in q ==> t in want && t in info
    ensures FlagsAt(flags, q, want, info, 0) == flags
  {
  }

  lemma {:induction false} LastFlags(flags: Bits, q: seq<Tid>, want: map<Tid, Bits>, info: map<Tid, Options>)
    requires NoDup(q) && forall t :: t in q ==> t in want && t in info
    ensures WakePass(flags, q, want, info).flags == FlagsAt(flags, q, want, info, |q|)
    decreases |q|
  {
    hide There, NoDup, Satisfied;
    FlagsStart(flags, q, want, info);
    if q != [] {
      RestKnown(q);
      FirstTurn(flags, q, want, info);
      var t, rest := q[0], FlagsAt(flags, q, want, info, 1);
      var want1 := if There(flags, want[t], info[t]) then want[t := want[t] * flags] else want;
      FlagsTail(flags, q, want, info, |q|);
      FlagsFrame(rest, q[1..], want, want1, info, |q| - 1);
      LastFlags(rest, q[1..], want1, info);
    }
  }

  lemma {:induction false} LeftInOrder(flags: Bits, q: seq<Tid>, want: map<Tid, Bits>, info: map<Tid, Options>)
    requires NoDup(q) && forall t :: t in q ==> t in want && t in info
    ensures var left := WakePass(flags, q, want, info).left; left == Keep(q, SetOf(left))
    decreases |q|
  {
    if q == [] {
      assert WakePass(flags, q, want, info).left == [];
    } else {
      hide There, NoDup, Satisfied, Granted, FlagsAt, WakePass;
      RestKnown(q);
      FirstTurn(flags, q, want, info);
      var t, rest := q[0], FlagsAt(flags, q, want, info, 1);
      var there := There(flags, want[t], info[t]);
      var want1 := if there then want[t := want[t] * flags] else want;
      LeftInOrder(rest, q[1..], want1, info);
      WakePassFacts(rest, q[1..], want1, info);
      var left, less := WakePass(flags, q, want, info).left, WakePass(rest, q[1..], want1, info).left;
      hide Keep, SetOf;
      KeepFirst(q, less);
      assert left == if there then less else [t] + less;
    }
  }

  lemma PassServes(flags: Bits, q: seq<Tid>, want: map<Tid, Bits>, info: map<Tid, Options>)
    requires NoDup(q) && forall t :: t in q ==> t in want && t in info
    ensures ServedInTurn(flags, q, want, info, WakePass(flags, q, want, info))
  {
    hide There, NoDup, WakePass, Satisfied, Granted, FlagsAt;
    LastFlags(flags, q, want, info);
    LeftInOrder(flags, q, want, info);
    WakePassFacts(flags, q, want, info);
    forall k | 0 <= k < |q|
      ensures var t, p, there := q[k], WakePass(flags, q, want, info), FlagsAt(flags, q, want, info, k);
              && (t in p.left <==> !There(there, want[t], info[t]))
              && t in p.eventSet && (t !in p.left ==> p.eventSet[t] == want[t] * there)
    {
      Turn(flags, q, want, info, k);
    }
  }

  /** A send sets its flags, then serves the waiters in list order; those served are woken, without an error. */
  lemma SendAnswers(s: State, bits: Bits)
    requires Inv(s)
    ensures forall t :: t in s.queue ==> t in s.eventSet && t in s.eventInfo
    ensures var (s', out) := Step(s, Send(bits));
            if bits == {} then out == Refused(ERROR) && s' == s
            else
              && out == Quiet && s'.place == s.place && s'.error == s.error && s'.eventInfo == s.eventInfo
              && ServedInTurn(s.set_ + bits, s.queue, s.eventSet, s.eventInfo, Pass(s'.set_, s'.queue, s'.eventSet))
              && (forall t :: t in s'.timers <==> t in s.timers && (t in s.queue ==> t in s'.queue))
  {
    hide NoneMissed, Requests, Grants, ServedInTurn, WakePass, NoDup;
    Pieces(s);
    WaitersAsk(s);
    PassServes(s.set_ + bits, s.queue, s.eventSet, s.eventInfo);
  }

  lemma WaitersAsk(s: State)
    requires Inv(s)
    ensures forall t :: t in s.queue ==> t in s.eventSet && t in s.eventInfo
  {
  }

  // ---- Whole runs, by the arguments of the calls ----

  /** The last receive of each thread. */
  function Note(calls: map<Tid, Action>, a: Action): map<Tid, Action> {
    if a.Recv? then calls[a.t := a] else calls
  }

  function Calls(calls: map<Tid, Action>, acts: seq<Action>): map<Tid, Action>
    decreases |acts|
  {
    if acts == [] then calls else Calls(Note(calls, acts[0]), acts[1..])
  }

  /** Everyone in the wait list waits for what its last receive asked for. */
  ghost predicate Remembers(s: State, calls: map<Tid, Action>) {
    forall t :: t in s.queue ==>
      && t in calls && calls[t].Recv? && t in s.eventSet && t in s.eventInfo
      && s.eventSet[t] == calls[t].bits && s.eventInfo[t] == calls[t].opt
  }

  lemma SendRemembers(s: State, bits: Bits, calls: map<Tid, Action>)
    requires Inv(s) && Remembers(s, calls)
    ensures Remembers(SendStep(s, bits).0, calls)
  {
    hide Inv, NoDup, Satisfied, WakePass, Granted, WellFormed;
    Pieces(s);
    WaitersAsk(s);
    WakePassFacts(s.set_ + bits, s.queue, s.eventSet, s.eventInfo);
  }

  lemma ListsKnown(s: State)
    requires Inv(s)
    ensures forall u :: u in s.queue ==> u in s.place && u in s.error && u in s.eventSet && u in s.eventInfo
  {
  }

  lemma RecvRemembers(s: State, t: Tid, bits: Bits, opt: Options, timeout: int, calls: map<Tid, Action>)
    requires Inv(s) && Remembers(s, calls) && Enabled(s, Recv(t, bits, opt, timeout))
    ensures Remembers(RecvStep(s, t, bits, opt, timeout).0, calls[t := Recv(t, bits, opt, timeout)])
  {
    hide Inv, NoDup, There, Served, Enqueue, WellFormed, RecvStep;
    Pieces(s);
    RecvKnown(s, t);
    OutsideNotQueued(s, t);
    ListsKnown(s);
    EnqueueMembers(s.queue, t, s.flag, s.prio);
    RecvAnswers(s, t, bits, opt, timeout);
  }

  lemma StepRemembers(s: State, a: Action, calls: map<Tid, Action>)
    requires Inv(s) && Enabled(s, a) && Remembers(s, calls)
    ensures Remembers(Step(s, a).0, Note(calls, a))
  {
    hide Inv, NoDup, SendStep, RecvStep, Remove, WellFormed;
    Pieces(s);
    match a
    case Send(bits) => SendRemembers(s, bits, calls);
    case Recv(t, bits, opt, timeout) => RecvRemembers(s, t, bits, opt, timeout, calls);
    case Continue(t) =>
    case Timeout(t) => RemoveMembers(s.queue, t);
    case Reset =>
  }

  lemma {:induction false} RunRemembers(s: State, acts: seq<Action>, calls: map<Tid, Action>)
    requires Inv(s) && Remembers(s, calls)
    ensures |Run(s, acts).1| <= |acts|
    ensures Remembers(Run(s, acts).0, Calls(calls, acts[..|Run(s, acts).1|]))
    decreases |acts|
  {
    hide Step, Inv, Remembers, Note;
    if acts != [] && WellFormed(s) && Enabled(s, acts[0]) {
      StepKeepsInv(s, acts[0]);
      StepRemembers(s, acts[0], calls);
      RunRemembers(Step(s, acts[0]).0, acts[1..], Note(calls, acts[0]));
      var n := |Run(Step(s, acts[0]).0, acts[1..]).1|;
      assert acts[..n + 1][0] == acts[0] && acts[..n + 1][1..] == acts[1..][..n];
    }
  }

  /**
   From `rt_event_init`, after any run: whoever is still suspended in a receive for all of some flags misses one of
   them, and whoever waits for any of some flags finds none of them set.
   */
  lemma NobodySleepsInVain(s: State, acts: seq<Action>)
    requires Initial(s)
    ensures var (s', outs) := Run(s, acts);
            && |outs| <= |acts|
            && forall t :: t in s'.queue ==>
                 var calls := Calls(map[], acts[..|outs|]);
                 && t in calls && calls[t].Recv?
                 && if calls[t].opt.all then exists b :: b in calls[t].bits && b !in s'.set_
                    else forall b :: b in calls[t].bits ==> b !in s'.set_
  {
    InitialInv(s);
    RunRemembers(s, acts, map[]);
    RunKeepsInv(s, acts);
    var (s', outs) := Run(s, acts);
    var calls := Calls(map[], acts[..|outs|]);
    forall t | t in s'.queue
      ensures t in calls && calls[t].Recv?
      ensures if calls[t].opt.all then exists b :: b in calls[t].bits && b !in s'.set_
              else forall b :: b in calls[t].bits ==> b !in s'.set_
    {
      WaiterMisses(s', t);
      SatisfiedIsThere(s'.set_, s'.eventSet[t], s'.eventInfo[t]);
    }
  }

  lemma InitialInv(s: State)
    requires Initial(s)
    ensures Inv(s) && Remembers(s, map[])
  {
  }

  lemma WaiterMisses(s: State, t: Tid)
    requires Inv(s) && t in s.queue
    ensures t in s.eventSet && t in s.eventInfo && !Satisfied(s.set_, s.eventSet[t], s.eventInfo[t])
    ensures s.eventInfo[t].all || s.eventInfo[t].any
  {
  }
}
