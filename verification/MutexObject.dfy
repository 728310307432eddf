/** The mutex object and the thread fields it touches, updated in place. */
module MutexObjects {
  import opened Common
  import opened Waiting
  import opened Mutex

  class MutexObject {
    const flag: Flag
    var value: nat
    var owner: Option<Tid>
    var originalPriority: nat
    var hold: nat
    var suspendThread: seq<Tid>
    var prio: map<Tid, nat>
    var place: map<Tid, Place>
    var error: map<Tid, Err>
    var timers: set<Tid>
    ghost var base: map<Tid, nat>
    ghost var pressed: seq<nat>
    ghost var depth: map<Tid, nat>

    ghost function Abs(): State
      reads this
    {
      State(value, owner, originalPriority, hold, flag, suspendThread, prio, place, error, timers, base, pressed, depth)
    }

    /** `rt_mutex_init` */
    constructor (flag: Flag, prio: map<Tid, nat>)
      ensures Initial(Abs()) && Inv(Abs()) && this.flag == flag && this.prio == prio
    {
      this.flag := flag;
      value, owner, originalPriority, hold := 1, None, 0xff, 0;
      suspendThread, timers := [], {};
      this.prio := prio;
      place := map t | t in prio :: Outside;
      error := map t | t in prio :: EOK;
      base, pressed := prio, [];
      depth := map t | t in prio :: 0;
      new;
      InitialInv(Abs());
    }

    /** `rt_mutex_take`, up to its `rt_schedule` or its return. */
    method Take(t: Tid, timeout: int) returns (out: Output)
      requires Inv(Abs()) && Enabled(Abs(), Action.Take(t, timeout)) && !Overflows(Abs(), Action.Take(t, timeout))
      modifies this
      ensures (Abs(), out) == Step(old(Abs()), Action.Take(t, timeout)) && Inv(Abs())
    {
      hide Inv, BlockOn, Acquire, Deepen, ReleaseStep, ContinueStep, WellFormed, Known;
      StepKeepsInv(Abs(), Action.Take(t, timeout));
      Unfold(Abs());
      Members(Abs());
      ErrorWellFormed(Abs(), t);
      error := error[t := EOK];
      if owner == Some(t) {
        Nest(t);
        return Taken(t);
      }
      if value > 0 {
        TakeFreeMutex(t);
        return Taken(t);
      }
      if timeout == 0 {
        error := error[t := ETIMEOUT];
        return Refused(ETIMEOUT);
      }
      Block(t, timeout);
      out := Blocked;
    }

    method Nest(t: Tid)
      requires t in depth
      modifies this`hold, this`depth
      ensures Abs() == Deepen(old(Abs()).(hold := Byte(old(hold) + 1)), t)
    {
      hold := (hold + 1) % 0x100;
      depth := depth[t := depth[t] + 1];
    }

    method TakeFreeMutex(t: Tid)
      requires t in depth && t in prio && value > 0
      modifies this
      ensures Abs() == Deepen(Acquire(old(Abs()), t), t)
    {
      hide Byte;
      value, owner, originalPriority, hold := value - 1, Some(t), prio[t], Byte(hold + 1);
      pressed := [];
      depth := depth[t := depth[t] + 1];
    }

    lemma ErrorWellFormed(s: State, t: Tid)
      requires WellFormed(s) && t in s.error
      ensures WellFormed(s.(error := s.error[t := EOK]))
    {
    }

    lemma KnownAfterLending(t: Tid)
      requires WellFormed(Abs()) && t in prio && owner.Some?
      ensures var o := owner.value;
              o in prio && Known(suspendThread, if prio[t] < prio[o] then prio[o := prio[t]] else prio)
    {
    }

    /** The waiting branch: lend the priority to the owner, suspend, start the timer. */
    method Block(t: Tid, timeout: int)
      requires WellFormed(Abs()) && t in prio && owner.Some?
      modifies this
      ensures Abs() == BlockOn(old(Abs()), t, timeout)
    {
      hide Enqueue, Known, WellFormed;
      KnownAfterLending(t);
      ghost var blocked := BlockOn(Abs(), t, timeout);
      pressed := pressed + [prio[t]];
      if prio[t] < prio[owner.value] {
        prio := prio[owner.value := prio[t]];
      }
      assert prio == blocked.prio;
      var list := ListSuspend(suspendThread, t, flag, prio);
      suspendThread, place := list, place[t := Waiting];
      timers := if timeout > 0 then timers + {t} else timers - {t};
    }

    /** The rest of `rt_mutex_take` after `rt_schedule` returns. */
    method Continue(t: Tid) returns (out: Output)
      requires Inv(Abs()) && Enabled(Abs(), Action.Continue(t))
      modifies this
      ensures (Abs(), out) == Step(old(Abs()), Action.Continue(t)) && Inv(Abs())
    {
      hide Inv, TakeStep, ReleaseStep, Known;
      StepKeepsInv(Abs(), Action.Continue(t));
      Unfold(Abs());
      place := place[t := Outside];
      if error[t] != EOK { return Refused(error[t]); }
      depth := depth[t := depth[t] + 1];
      out := Taken(t);
    }

    /** `rt_mutex_release` */
    method Release(t: Tid) returns (out: Output)
      requires Inv(Abs()) && Enabled(Abs(), Action.Release(t))
      modifies this
      ensures (Abs(), out) == Step(old(Abs()), Action.Release(t)) && Inv(Abs())
    {
      hide Inv, HandOver, TakeStep, ContinueStep, Known;
      StepKeepsInv(Abs(), Action.Release(t));
      Unfold(Abs());
      ghost var s := Abs();
      if owner != Some(t) {
        error := error[t := ERROR];
        return Refused(ERROR);
      }
      hold := (hold - 1) % 0x100;
      depth := depth[t := if depth[t] > 0 then depth[t] - 1 else 0];
      assert Abs() == s.(hold := Byte(s.hold - 1), depth := s.depth[t := if s.depth[t] > 0 then s.depth[t] - 1 else 0]);
      if hold == 0 { PassOn(t); }
      out := Released(t);
    }

    lemma RemoveHead(q: seq<Tid>)
      ensures q != [] ==> Remove(q, q[0]) == q[1..]
    {
    }

    lemma Members(s: State)
      requires WellFormed(s)
      ensures s.owner.Some? ==> s.owner.value in s.prio
      ensures s.queue != [] ==> s.queue[0] in s.prio
      ensures s.prio.Keys == s.place.Keys == s.error.Keys == s.base.Keys == s.depth.Keys
      ensures s.value == 0 ==> s.owner.Some?
    {
      if s.queue != [] { assert s.queue[0] in s.queue; }
    }

    /** The branch of `rt_mutex_release` for the last hold. */
    method PassOn(t: Tid)
      requires WellFormed(Abs()) && owner == Some(t)
      modifies this
      ensures Abs() == HandOver(old(Abs()))
    {
      hide WellFormed, Known, PassMutex, FreeMutex;
      ghost var s := Abs();
      Members(s);
      if originalPriority != prio[t] {
        prio := prio[t := originalPriority];
      }
      pressed := [];
      assert Abs() == s.(prio := s.prio[t := s.original], pressed := []);
      if suspendThread != [] {
        PassToWaiter();
      } else {
        Free();
      }
    }

    method PassToWaiter()
      requires suspendThread != [] && suspendThread[0] in prio
      modifies this
      ensures Abs() == PassMutex(old(Abs()))
    {
      hide Remove;
      RemoveHead(suspendThread);
      var next := suspendThread[0];
      owner := Some(next);
      originalPriority := prio[next];
      hold := (hold + 1) % 0x100;
      suspendThread := suspendThread[1..];
      timers := timers - {next};
    }

    method Free()
      modifies this
      ensures Abs() == FreeMutex(old(Abs()))
    {
      value := value + 1;
      owner := None;
      originalPriority := 0xff;
    }

    /** `rt_thread_timeout` for a thread that waits here. */
    method ThreadTimeout(t: Tid)
      requires Inv(Abs()) && Enabled(Abs(), Timeout(t))
      modifies this
      ensures Abs() == Step(old(Abs()), Timeout(t)).0 && Inv(Abs())
    {
      StepKeepsInv(Abs(), Timeout(t));
      error := error[t := ETIMEOUT];
      suspendThread := Remove(suspendThread, t);
      timers := timers - {t};
    }
  }
}
