/** The event object, with the wake loop of `rt_event_send` over its wait list. */
module EventObjects {
  import opened Common
  import opened Waiting
  import opened Event

  class EventObject {
    const flag: Flag
    var eventBits: Bits
    var suspendThread: seq<Tid>
    var prio: map<Tid, nat>
    var eventSet: map<Tid, Bits>
    var eventInfo: map<Tid, Options>
    var place: map<Tid, Place>
    var error: map<Tid, Err>
    var timers: set<Tid>
    ghost var asked: map<Tid, Bits>

    ghost function Abs(): State
      reads this
    {
      State(eventBits, flag, suspendThread, prio, eventSet, eventInfo, place, error, timers, asked)
    }

    /** `rt_event_init` */
    constructor (flag: Flag, prio: map<Tid, nat>)
      ensures Initial(Abs()) && Inv(Abs()) && this.flag == flag && this.prio == prio
    {
      this.flag := flag;
      eventBits, suspendThread, timers := {}, [], {};
      this.prio := prio;
      eventSet := map t | t in prio :: {};
      eventInfo := map t | t in prio :: Options(false, false, false);
      place := map t | t in prio :: Outside;
      error := map t | t in prio :: EOK;
      asked := map t | t in prio :: {};
    }

    /** `rt_event_send`: one walk along the list, unlinking each waiter whose condition is met. */
    method Send(bits: Bits) returns (out: Output)
      requires Inv(Abs())
      modifies this
      ensures (Abs(), out) == Step(old(Abs()), Action.Send(bits)) && Inv(Abs())
    {
      hide SendStep;
      StepKeepsInv(Abs(), Action.Send(bits));
      out := SendBits(bits);
    }

    method SendBits(bits: Bits) returns (out: Output)
      requires Inv(Abs())
      modifies this
      ensures (Abs(), out) == SendStep(old(Abs()), bits)
    {
      hide WakePass, Requests, Grants, NoneMissed;
      if bits == {} { return Refused(ERROR); }
      ghost var s := Abs();
      var flags, left, sets, woken := WakeLoop(eventBits + bits, suspendThread, eventSet, eventInfo);
      eventBits, eventSet := flags, sets;
      timers := timers - woken;
      suspendThread := left;
      assert timers == SendStep(s, bits).0.timers;
      out := Quiet;
    }

    /** `rt_event_recv`, up to its `rt_schedule` or its return. */
    method Recv(t: Tid, bits: Bits, opt: Options, timeout: int) returns (out: Output)
      requires Inv(Abs()) && Enabled(Abs(), Action.Recv(t, bits, opt, timeout))
      modifies this
      ensures (Abs(), out) == Step(old(Abs()), Action.Recv(t, bits, opt, timeout)) && Inv(Abs())
    {
      hide RecvStep;
      StepKeepsInv(Abs(), Action.Recv(t, bits, opt, timeout));
      out := RecvBits(t, bits, opt, timeout);
    }

    method RecvBits(t: Tid, bits: Bits, opt: Options, timeout: int) returns (out: Output)
      requires WellFormed(Abs()) && t in prio
      modifies this
      ensures (Abs(), out) == RecvStep(old(Abs()), t, bits, opt, timeout)
    {
      hide Enqueue, Immediate;
      if bits == {} { return Refused(ERROR); }
      var met := if opt.all then eventBits * bits == bits else opt.any && eventBits * bits != {};
      asked := asked[t := bits];
      if met {
        out := TakeNow(t, bits, opt);
      } else if timeout == 0 {
        error := error[t := ETIMEOUT];
        out := Refused(ETIMEOUT);
      } else {
        Block(t, bits, opt, timeout);
        out := Blocked;
      }
    }

    /** The branch of `rt_event_recv` whose flags are there. */
    method TakeNow(t: Tid, bits: Bits, opt: Options) returns (out: Output)
      modifies this`eventBits, this`error
      ensures out == Received(t, Immediate(old(eventBits), bits, opt).0)
      ensures eventBits == Immediate(old(eventBits), bits, opt).1 && error == old(error)[t := EOK]
    {
      error := error[t := EOK];
      out := Received(t, eventBits * bits);
      if opt.clear { eventBits := eventBits - bits; }
    }

    /** The waiting branch of `rt_event_recv`. */
    method Block(t: Tid, bits: Bits, opt: Options, timeout: int)
      requires t in prio && Known(suspendThread, prio)
      modifies this`eventSet, this`eventInfo, this`suspendThread, this`place, this`timers, this`error
      ensures eventSet == old(eventSet)[t := bits] && eventInfo == old(eventInfo)[t := opt]
              && error == old(error)[t := EOK]
      ensures suspendThread == Enqueue(old(suspendThread), t, flag, prio) && place == old(place)[t := Waiting]
      ensures timers == if timeout > 0 then old(timers) + {t} else old(timers) - {t}
    {
      error := error[t := EOK];
      eventSet := eventSet[t := bits];
      eventInfo := eventInfo[t := opt];
      suspendThread := ListSuspend(suspendThread, t, flag, prio);
      place := place[t := Waiting];
      timers := if timeout > 0 then timers + {t} else timers - {t};
    }
  }

  /** The `while` loop of `rt_event_send`: the threads woken leave the list, in order, as they are met. */
  method WakeLoop(flags0: Bits, q: seq<Tid>, eventSet0: map<Tid, Bits>, info: map<Tid, Options>)
    returns (flags: Bits, left: seq<Tid>, eventSet: map<Tid, Bits>, woken: set<Tid>)
    requires NoDup(q) && forall t :: t in q ==> t in eventSet0 && t in info
    ensures Pass(flags, left, eventSet) == WakePass(flags0, q, eventSet0, info)
    ensures woken == set t | t in q && t !in left
  {
    hide WakeOne, Satisfied;
    flags, left, eventSet, woken := flags0, [], eventSet0, {};
    var n := 0;
    while n < |q|
      invariant 0 <= n <= |q| && eventSet.Keys == eventSet0.Keys
      invariant forall t :: t in left ==> t in q[..n]
      invariant woken == set t | t in q[..n] && t !in left
      invariant forall t :: t in q[n..] ==> t in q
      invariant var p := WakePass(flags, q[n..], eventSet, info);
                WakePass(flags0, q, eventSet0, info) == p.(left := left + p.left)
    {
      var t := q[n];
      assert q[n..] == [t] + q[n + 1..] && q[..n + 1] == q[..n] + [t];
      assert t !in q[..n];
      assert t in q;
      if Satisfied(flags, eventSet[t], info[t]) {
        var (got, rest) := WakeOne(flags, eventSet[t], info[t]);
        eventSet := eventSet[t := got];
        flags := rest;
        woken := woken + {t};
      } else {
        ghost var p := WakePass(flags, q[n + 1..], eventSet, info);
        assert left + ([t] + p.left) == (left + [t]) + p.left;
        left := left + [t];
      }
      n := n + 1;
    }
    assert left + [] == left && q[..n] == q;
  }
}
