/**
 Mutexes with priority inheritance as a step system: one mutex, any number of threads, any
 interleaving of recursive takes, timeouts and releases.  No one else changes priorities.
 */
module Mutex {
  import opened Common
  import opened Waiting

  /** `Waiting` threads are inside `rt_mutex_take`: suspended, or woken and yet to return. */
  datatype Place = Outside | Waiting

  /**
   `base` (each thread's own priority), `pressed` (the priorities of the threads that blocked since
   the owner acquired) and `depth` (takes minus releases that returned success) are history variables.
   */
  datatype State = State(
    value: nat, owner: Option<Tid>, original: nat, hold: nat, flag: Flag,
    queue: seq<Tid>, prio: map<Tid, nat>, place: map<Tid, Place>, error: map<Tid, Err>, timers: set<Tid>,
    base: map<Tid, nat>, pressed: seq<nat>, depth: map<Tid, nat>)

  datatype Action =
    | Take(t: Tid, timeout: int)
    | Continue(t: Tid)
    | Release(t: Tid)
    | Timeout(t: Tid)

  datatype Output = Taken(t: Tid) | Released(t: Tid) | Refused(error: Err) | Blocked | Quiet

  /** The `hold` counter is a byte. */
  function Byte(n: int): nat {
    n % 0x100
  }

  predicate WellFormed(s: State) {
    && s.prio.Keys == s.place.Keys == s.error.Keys == s.base.Keys == s.depth.Keys
    && Known(s.queue, s.prio)
    && (s.owner.Some? ==> s.owner.value in s.prio)
    && (s.value == 0 ==> s.owner.Some?)
  }

  /** `rt_thread_resume` */
  function Wake(s: State, t: Tid): State {
    s.(queue := Remove(s.queue, t), timers := s.timers - {t})
  }

  function Deepen(s: State, t: Tid): State
    requires t in s.depth
  {
    s.(depth := s.depth[t := s.depth[t] + 1])
  }

  /** The free mutex, or one more hold of it, goes to `t`. */
  function Acquire(s: State, t: Tid): State
    requires t in s.prio && s.value > 0
  {
    s.(value := s.value - 1, owner := Some(t), original := s.prio[t], hold := Byte(s.hold + 1), pressed := [])
  }

  /** A blocking take lends its priority to the owner if it is more urgent, and suspends. */
  function BlockOn(s: State, t: Tid, timeout: int): State
    requires WellFormed(s) && t in s.prio && s.owner.Some?
  {
    var o := s.owner.value;
    var prio := if s.prio[t] < s.prio[o] then s.prio[o := s.prio[t]] else s.prio;
    s.(prio := prio, queue := Enqueue(s.queue, t, s.flag, prio), place := s.place[t := Waiting],
       timers := if timeout > 0 then s.timers + {t} else s.timers - {t}, pressed := s.pressed + [s.prio[t]])
  }

  function TakeStep(s0: State, t: Tid, timeout: int): (State, Output)
    requires WellFormed(s0) && t in s0.prio
  {
    var s := s0.(error := s0.error[t := EOK]);
    if s.owner == Some(t) then (Deepen(s.(hold := Byte(s.hold + 1)), t), Taken(t))
    else if s.value > 0 then (Deepen(Acquire(s, t), t), Taken(t))
    else if timeout == 0 then (s.(error := s.error[t := ETIMEOUT]), Refused(ETIMEOUT))
    else (BlockOn(s, t, timeout), Blocked)
  }

  /** A woken thread returns its error; without one the mutex is already its own. */
  function ContinueStep(s: State, t: Tid): (State, Output)
    requires WellFormed(s) && t in s.prio
  {
    var s1 := s.(place := s.place[t := Outside]);
    if s.error[t] != EOK then (s1, Refused(s.error[t])) else (Deepen(s1, t), Taken(t))
  }

  function FreeMutex(s: State): State {
    s.(value := s.value + 1, owner := None, original := 0xff)
  }

  /** The first waiter becomes the owner, with one hold, and is resumed. */
  function PassMutex(s: State): State
    requires s.queue != [] && s.queue[0] in s.prio
  {
    var h := s.queue[0];
    Wake(s.(owner := Some(h), original := s.prio[h], hold := Byte(s.hold + 1)), h)
  }

  /** The last release: the owner's priority goes back, and the mutex to the first waiter if there is one. */
  function HandOver(s: State): State
    requires WellFormed(s) && s.owner.Some?
  {
    var s1 := s.(prio := s.prio[s.owner.value := s.original], pressed := []);
    if s.queue == [] then FreeMutex(s1) else assert s.queue[0] in s.queue; PassMutex(s1)
  }

  function ReleaseStep(s: State, t: Tid): (State, Output)
    requires WellFormed(s) && t in s.prio
  {
    if s.owner != Some(t) then (s.(error := s.error[t := ERROR]), Refused(ERROR))
    else
      var s1 := s.(hold := Byte(s.hold - 1), depth := s.depth[t := if s.depth[t] > 0 then s.depth[t] - 1 else 0]);
      (if s1.hold == 0 then HandOver(s1) else s1, Released(t))
  }

  predicate Enabled(s: State, a: Action) {
    match a
    case Take(t, _) => t in s.place && s.place[t].Outside?
    case Continue(t) => t in s.place && s.place[t].Waiting? && t !in s.queue
    case Release(t) => t in s.place && s.place[t].Outside?
    case Timeout(t) => t in s.timers && t in s.error
  }

  function Step(s: State, a: Action): (State, Output)
    requires WellFormed(s) && Enabled(s, a)
  {
    match a
    case Take(t, timeout) => TakeStep(s, t, timeout)
    case Continue(t) => ContinueStep(s, t)
    case Release(t) => ReleaseStep(s, t)
    case Timeout(t) => (Wake(s.(error := s.error[t := ETIMEOUT]), t), Quiet)
  }

  // ---- The invariant ----

  /** Value, owner and hold agree; waiters imply an owner. */
  ghost predicate Counters(value: nat, owner: Option<Tid>, hold: nat, queue: seq<Tid>) {
    && value <= 1 && (value == 1 <==> owner == None) && (owner == None <==> hold == 0)
    && (queue != [] ==> owner.Some?)
    && hold < 0x100
  }

  /** Who waits, and who has been handed the mutex but has not returned yet. */
  ghost predicate Lists(queue: seq<Tid>, owner: Option<Tid>, hold: nat,
                        place: map<Tid, Place>, error: map<Tid, Err>, timers: set<Tid>) {
    && NoDup(queue) && place.Keys == error.Keys
    && (forall t :: t in queue ==> t in place && place[t].Waiting? && error[t] == EOK && owner != Some(t))
    && (forall t :: t in timers ==> t in queue)
    && (forall t :: t in place && place[t].Waiting? && t !in queue && error[t] == EOK ==> owner == Some(t))
    && (forall t :: t in place && place[t].Waiting? && owner == Some(t) ==> error[t] == EOK && hold == 1)
  }

  /** Mutual exclusion: only the owner, once it is out of `rt_mutex_take`, holds the mutex, `hold` times. */
  ghost predicate Exclusive(owner: Option<Tid>, hold: nat, place: map<Tid, Place>, depth: map<Tid, nat>) {
    forall t :: t in depth && t in place ==> depth[t] == if owner == Some(t) && place[t].Outside? then hold else 0
  }

  /** The most urgent of `p` and the priorities in `ps`. */
  function Least(p: nat, ps: seq<nat>): (m: nat)
    ensures m <= p && (m == p || m in ps) && forall q :: q in ps ==> m <= q
  {
    if ps == [] then p
    else
      var last := ps[|ps| - 1];
      var m := Least(p, ps[..|ps| - 1]);
      assert forall q :: q in ps ==> q == last || q in ps[..|ps| - 1];
      if last < m then last else m
  }

  /**
   Every thread but the owner runs at its own priority; the owner at the most urgent of its own and
   those of the threads that blocked since it acquired.
   */
  ghost predicate Inherits(owner: Option<Tid>, original: nat, pressed: seq<nat>,
                           prio: map<Tid, nat>, base: map<Tid, nat>) {
    && prio.Keys == base.Keys
    && (forall t :: t in prio && owner != Some(t) ==> prio[t] == base[t])
    && (owner.Some? ==>
          owner.value in prio && original == base[owner.value] && prio[owner.value] == Least(original, pressed))
  }

  /** With priority-ordered waiting, the list is sorted and the owner is at least as urgent as every waiter. */
  ghost predicate NoInversion(flag: Flag, queue: seq<Tid>, owner: Option<Tid>, prio: map<Tid, nat>) {
    flag.Prio? ==>
      && Known(queue, prio) && Sorted(queue, prio)
      && (owner.Some? && owner.value in prio ==> forall t :: t in queue ==> prio[owner.value] <= prio[t])
  }

  ghost predicate Inv(s: State) {
    && WellFormed(s)
    && Counters(s.value, s.owner, s.hold, s.queue)
    && Lists(s.queue, s.owner, s.hold, s.place, s.error, s.timers)
    && Exclusive(s.owner, s.hold, s.place, s.depth)
    && Inherits(s.owner, s.original, s.pressed, s.prio, s.base)
    && NoInversion(s.flag, s.queue, s.owner, s.prio)
  }

  /** The one step that breaks it: the 256th nested take wraps the hold counter. */
  predicate Overflows(s: State, a: Action) {
    a.Take? && s.owner == Some(a.t) && s.hold == 0xff
  }

  lemma Pieces(s: State)
    requires Inv(s)
    ensures Counters(s.value, s.owner, s.hold, s.queue)
    ensures Lists(s.queue, s.owner, s.hold, s.place, s.error, s.timers)
    ensures Exclusive(s.owner, s.hold, s.place, s.depth)
    ensures Inherits(s.owner, s.original, s.pressed, s.prio, s.base)
    ensures NoInversion(s.flag, s.queue, s.owner, s.prio)
  {
  }

  // ---- Taking ----

  /** Clearing or setting the error of a thread that does not wait. */
  lemma ErrorKeeps(s: State, t: Tid, e: Err)
    requires Inv(s) && t in s.place && s.place[t].Outside?
    ensures Inv(s.(error := s.error[t := e]))
  {
    hide Counters, Exclusive, Inherits, NoInversion, Lists;
    Pieces(s);
    ErrorLists(s.queue, s.owner, s.hold, s.place, s.error, s.timers, t, e);
  }

  lemma ErrorLists(queue: seq<Tid>, owner: Option<Tid>, hold: nat, place: map<Tid, Place>, error: map<Tid, Err>,
                   timers: set<Tid>, t: Tid, e: Err)
    requires Lists(queue, owner, hold, place, error, timers) && t in place && place[t].Outside?
    ensures Lists(queue, owner, hold, place, error[t := e], timers)
  {
    hide NoDup;
  }

  lemma NestKeeps(s: State, t: Tid)
    requires Inv(s) && t in s.place && s.place[t].Outside? && s.owner == Some(t) && s.hold < 0xff
    ensures Inv(Deepen(s.(hold := Byte(s.hold + 1)), t))
  {
    hide Inherits, NoInversion;
  }

  lemma AcquireKeeps(s: State, t: Tid)
    requires Inv(s) && t in s.place && s.place[t].Outside? && s.value > 0
    ensures Inv(Deepen(Acquire(s, t), t))
  {
    hide NoInversion;
    assert s.queue == [] && s.hold == 0;
    assert NoInversion(s.flag, [], Some(t), s.prio) by { EmptyNoInversion(s.flag, Some(t), s.prio); }
  }

  lemma EmptyNoInversion(flag: Flag, owner: Option<Tid>, prio: map<Tid, nat>)
    ensures NoInversion(flag, [], owner, prio)
  {
  }

  /** Lending the priority: nobody but the owner changes, and the owner is the least of all pressed. */
  lemma LendKeeps(o: Tid, t: Tid, original: nat, pressed: seq<nat>, prio: map<Tid, nat>, base: map<Tid, nat>)
    requires Inherits(Some(o), original, pressed, prio, base) && t in prio && t != o
    ensures var prio' := if prio[t] < prio[o] then prio[o := prio[t]] else prio;
            Inherits(Some(o), original, pressed + [prio[t]], prio', base) && prio'[o] <= prio[t] && prio'[o] <= prio[o]
  {
    assert (pressed + [prio[t]])[..|pressed|] == pressed;
  }

  /** The waiter is linked in order, and the boosted owner stays ahead of everyone. */
  lemma {:induction false} JoinKeeps(flag: Flag, queue: seq<Tid>, o: Tid, t: Tid,
                                     prio: map<Tid, nat>, prio': map<Tid, nat>)
    requires NoInversion(flag, queue, Some(o), prio) && o in prio && t in prio && t != o && o !in queue
             && Known(queue, prio)
    requires o in prio' && prio' == prio[o := prio'[o]] && prio'[o] <= prio[o] && prio'[o] <= prio[t]
    ensures Known(queue, prio') && NoInversion(flag, Enqueue(queue, t, flag, prio'), Some(o), prio')
  {
    assert forall u :: u in queue ==> u in prio' && prio'[u] == prio[u];
    if flag.Prio? {
      assert Sorted(queue, prio') by {
        forall i, j | 0 <= i < j < |queue| ensures prio'[queue[i]] <= prio'[queue[j]] {
          assert queue[i] in queue && queue[j] in queue;
        }
      }
      EnqueueSorted(queue, t, prio');
      EnqueueMembers(queue, t, flag, prio');
    }
  }

  lemma WaitKeeps(queue: seq<Tid>, owner: Option<Tid>, hold: nat, place: map<Tid, Place>, error: map<Tid, Err>,
                  timers: set<Tid>, t: Tid, flag: Flag, prio: map<Tid, nat>, timers': set<Tid>)
    requires Lists(queue, owner, hold, place, error, timers) && Known(queue, prio) && t in prio
    requires t in place && place[t].Outside? && error[t] == EOK && owner != Some(t) && timers' <= timers + {t}
    ensures Lists(Enqueue(queue, t, flag, prio), owner, hold, place[t := Waiting], error, timers')
    ensures Known(Enqueue(queue, t, flag, prio), prio)
  {
    hide NoDup, Enqueue;
    EnqueueMembers(queue, t, flag, prio);
    var q := Enqueue(queue, t, flag, prio);
    assert forall u :: u in q ==> u == t || u in queue;
    assert t in q;
  }

  lemma BlockKeeps(s: State, t: Tid, timeout: int)
    requires Inv(s) && t in s.place && s.place[t].Outside? && s.error[t] == EOK
    requires s.value == 0 && s.owner.Some? && s.owner != Some(t)
    ensures Inv(BlockOn(s, t, timeout))
  {
    hide Lists, Exclusive, Inherits, NoInversion, Enqueue, Counters, Least;
    Pieces(s);
    var o := s.owner.value;
    var prio' := if s.prio[t] < s.prio[o] then s.prio[o := s.prio[t]] else s.prio;
    OwnerNotQueued(s);
    assert prio' == s.prio[o := prio'[o]];
    LendKeeps(o, t, s.original, s.pressed, s.prio, s.base);
    JoinKeeps(s.flag, s.queue, o, t, s.prio, prio');
    WaitKeeps(s.queue, s.owner, s.hold, s.place, s.error, s.timers, t, s.flag, prio',
              if timeout > 0 then s.timers + {t} else s.timers - {t});
    StillWaitingCounters(s.value, s.owner, s.hold, s.queue, Enqueue(s.queue, t, s.flag, prio'));
    StillExclusive(s.owner, s.hold, s.place, s.depth, t);
  }

  lemma OwnerNotQueued(s: State)
    requires Inv(s) && s.owner.Some?
    ensures s.owner.value !in s.queue
  {
  }

  lemma StillWaitingCounters(value: nat, owner: Option<Tid>, hold: nat, q: seq<Tid>, q': seq<Tid>)
    requires Counters(value, owner, hold, q) && owner.Some?
    ensures Counters(value, owner, hold, q')
  {
  }

  lemma StillExclusive(owner: Option<Tid>, hold: nat, place: map<Tid, Place>, depth: map<Tid, nat>, t: Tid)
    requires Exclusive(owner, hold, place, depth) && owner != Some(t) && t in place
    ensures Exclusive(owner, hold, place[t := Waiting], depth)
  {
  }

  lemma TakeKeeps(s0: State, t: Tid, timeout: int)
    requires Inv(s0) && t in s0.place && s0.place[t].Outside? && !(s0.owner == Some(t) && s0.hold == 0xff)
    ensures Inv(TakeStep(s0, t, timeout).0)
  {
    hide Inv, Deepen, Acquire, BlockOn;
    assert WellFormed(s0) && s0.hold < 0x100 by { Unfold(s0); }
    var s := s0.(error := s0.error[t := EOK]);
    ErrorKeeps(s0, t, EOK);
    if s.owner == Some(t) {
      NestKeeps(s, t);
    } else if s.value > 0 {
      AcquireKeeps(s, t);
    } else if timeout == 0 {
      ErrorKeeps(s, t, ETIMEOUT);
    } else {
      BlockKeeps(s, t, timeout);
    }
  }

  lemma Unfold(s: State)
    requires Inv(s)
    ensures WellFormed(s) && s.hold < 0x100
  {
  }

  lemma ContinueKeeps(s: State, t: Tid)
    requires Inv(s) && Enabled(s, Continue(t))
    ensures Inv(ContinueStep(s, t).0)
  {
    hide Counters, Inherits, NoInversion, Lists, Exclusive;
    Pieces(s);
    ReturnKeeps(s.queue, s.owner, s.hold, s.place, s.error, s.timers, s.depth, t);
  }

  /** A thread comes out of `rt_mutex_take`: with an error it holds nothing, without one it owns the mutex once. */
  lemma ReturnKeeps(queue: seq<Tid>, owner: Option<Tid>, hold: nat, place: map<Tid, Place>, error: map<Tid, Err>,
                    timers: set<Tid>, depth: map<Tid, nat>, t: Tid)
    requires Lists(queue, owner, hold, place, error, timers) && Exclusive(owner, hold, place, depth)
    requires t in place && t in depth && place[t].Waiting? && t !in queue
    ensures Lists(queue, owner, hold, place[t := Outside], error, timers)
    ensures Exclusive(owner, hold, place[t := Outside], if error[t] == EOK then depth[t := depth[t] + 1] else depth)
  {
    hide NoDup;
  }

  // ---- Releasing ----

  /** The owner's priority goes back: now every thread runs at its own. */
  lemma RestoreKeeps(o: Tid, original: nat, pressed: seq<nat>, prio: map<Tid, nat>, base: map<Tid, nat>)
    requires Inherits(Some(o), original, pressed, prio, base)
    ensures prio[o := original] == base
  {
  }

  /** The head of a sorted list is at least as urgent as the rest, so the new owner needs no lending. */
  lemma HeadKeeps(flag: Flag, queue: seq<Tid>, owner: Option<Tid>, prio: map<Tid, nat>, base: map<Tid, nat>)
    requires NoInversion(flag, queue, owner, prio) && queue != [] && NoDup(queue) && Known(queue, prio)
    requires prio.Keys == base.Keys && forall t :: t in queue ==> base[t] == prio[t]
    ensures NoInversion(flag, Remove(queue, queue[0]), Some(queue[0]), base)
  {
    RemoveMembers(queue, queue[0]);
    if flag.Prio? {
      assert Sorted(queue, base) by {
        forall i, j | 0 <= i < j < |queue| ensures base[queue[i]] <= base[queue[j]] {
          assert queue[i] in queue && queue[j] in queue;
        }
      }
      RemoveSorted(queue, queue[0], base);
      forall t | t in Remove(queue, queue[0]) ensures base[queue[0]] <= base[t] {
        var k :| 0 <= k < |queue| && queue[k] == t;
      }
    }
  }

  lemma HandedLists(queue: seq<Tid>, o: Tid, hold: nat, place: map<Tid, Place>, error: map<Tid, Err>, timers: set<Tid>)
    requires Lists(queue, Some(o), hold, place, error, timers) && queue != [] && o in place && place[o].Outside?
    ensures Lists(Remove(queue, queue[0]), Some(queue[0]), 1, place, error, timers - {queue[0]})
  {
    RemoveMembers(queue, queue[0]);
  }

  /** A release of the last hold, handing over or freeing. */
  lemma LastReleaseKeeps(s: State, t: Tid)
    requires Inv(s) && t in s.place && s.place[t].Outside? && s.owner == Some(t) && s.hold == 1
    ensures Inv(ReleaseStep(s, t).0)
  {
    hide Lists, Inherits, NoInversion, Least, Remove;
    Pieces(s);
    var depth := s.depth[t := 0];
    assert s.depth[t] == 1;
    RestoreKeeps(t, s.original, s.pressed, s.prio, s.base);
    QueueAtBase(s);
    if s.queue == [] {
      FreedLists(s.owner, s.hold, s.place, s.error, s.timers, t);
      EmptyNoInversion(s.flag, None, s.base);
      AllAtBase(None, 0xff, s.base);
    } else {
      var h := s.queue[0];
      HeadKeeps(s.flag, s.queue, s.owner, s.prio, s.base);
      HandedLists(s.queue, t, s.hold, s.place, s.error, s.timers);
      AllAtBase(Some(h), s.base[h], s.base);
      RestKnown(s.queue, s.base);
    }
  }

  lemma RestKnown(queue: seq<Tid>, prio: map<Tid, nat>)
    requires queue != [] && NoDup(queue) && Known(queue, prio)
    ensures Known(Remove(queue, queue[0]), prio)
  {
    RemoveMembers(queue, queue[0]);
  }

  lemma QueueAtBase(s: State)
    requires Inv(s)
    ensures NoDup(s.queue) && Known(s.queue, s.base) && s.prio.Keys == s.base.Keys
    ensures forall t :: t in s.queue ==> s.base[t] == s.prio[t] && s.place[t].Waiting?
  {
  }

  lemma FreedLists(owner: Option<Tid>, hold: nat, place: map<Tid, Place>, error: map<Tid, Err>, timers: set<Tid>,
                   t: Tid)
    requires Lists([], owner, hold, place, error, timers) && owner == Some(t) && t in place && place[t].Outside?
    ensures Lists([], None, 0, place, error, timers)
  {
  }

  lemma AllAtBase(owner: Option<Tid>, original: nat, base: map<Tid, nat>)
    requires owner.Some? ==> owner.value in base && original == base[owner.value]
    ensures Inherits(owner, original, [], base, base)
  {
  }

  lemma ReleaseKeeps(s: State, t: Tid)
    requires Inv(s) && Enabled(s, Release(t))
    ensures Inv(ReleaseStep(s, t).0)
  {
    if s.owner != Some(t) {
      ErrorKeeps(s, t, ERROR);
    } else if s.hold == 1 {
      LastReleaseKeeps(s, t);
    } else {
      NestedReleaseKeeps(s, t);
    }
  }

  lemma NestedReleaseKeeps(s: State, t: Tid)
    requires Inv(s) && t in s.place && s.place[t].Outside? && s.owner == Some(t) && s.hold != 1
    ensures Inv(ReleaseStep(s, t).0)
  {
    hide Inherits, NoInversion, NoDup, HandOver;
    Pieces(s);
    assert s.depth[t] == s.hold && s.hold > 1;
  }

  lemma TimeoutKeeps(s: State, t: Tid)
    requires Inv(s) && Enabled(s, Timeout(t))
    ensures Inv(Step(s, Timeout(t)).0)
  {
    hide Inherits, Exclusive, NoInversion;
    RemoveMembers(s.queue, t);
    StillNoInversion(s.flag, s.queue, s.owner, s.prio, t);
  }

  lemma StillNoInversion(flag: Flag, queue: seq<Tid>, owner: Option<Tid>, prio: map<Tid, nat>, t: Tid)
    requires NoInversion(flag, queue, owner, prio) && NoDup(queue)
    ensures NoInversion(flag, Remove(queue, t), owner, prio)
  {
    RemoveMembers(queue, t);
    if flag.Prio? { RemoveSorted(queue, t, prio); }
  }

  /**
   A step keeps the invariant if and only if it is not the 256th nested take: counters, mutual
   exclusion, exact priority inheritance and, with priority-ordered waiting, no inversion.
   */
  lemma StepKeepsInv(s: State, a: Action)
    requires Inv(s) && Enabled(s, a)
    ensures Inv(Step(s, a).0) <==> !Overflows(s, a)
  {
    if Overflows(s, a) {
      assert Step(s, a).0.hold == 0 && Step(s, a).0.owner.Some?;
    } else {
      assert WellFormed(s);
      hide Inv, TakeStep, ContinueStep, ReleaseStep;
      match a
      case Take(t, timeout) => TakeKeeps(s, t, timeout);
      case Continue(t) => ContinueKeeps(s, t);
      case Release(t) => ReleaseKeeps(s, t);
      case Timeout(t) => TimeoutKeeps(s, t);
    }
  }

  // ---- Whole runs ----

  /** `rt_mutex_init`: free, nobody inside, every thread at its own priority. */
  ghost predicate Initial(s: State) {
    && WellFormed(s) && s.value == 1 && s.owner == None && s.hold == 0 && s.queue == [] && s.timers == {}
    && s.pressed == []
    && s.prio == s.base
    && forall t :: t in s.place ==> s.place[t].Outside? && s.depth[t] == 0
  }

  lemma InitialInv(s: State)
    requires Initial(s)
    ensures Inv(s)
  {
  }

  /** A run stops at a step that is not enabled. */
  function Run(s: State, acts: seq<Action>): (State, seq<Output>)
    decreases |acts|
  {
    if acts == [] || !WellFormed(s) || !Enabled(s, acts[0]) then (s, [])
    else
      var (s1, out) := Step(s, acts[0]);
      var (s2, outs) := Run(s1, acts[1..]);
      (s2, [out] + outs)
  }

  /** No thread nests 256 takes. */
  predicate Shallow(s: State, acts: seq<Action>)
    decreases |acts|
  {
    acts == [] || !WellFormed(s) || !Enabled(s, acts[0]) ||
    (!Overflows(s, acts[0]) && Shallow(Step(s, acts[0]).0, acts[1..]))
  }

  lemma {:induction false} RunKeepsInv(s: State, acts: seq<Action>)
    requires Inv(s) && Shallow(s, acts)
    ensures Inv(Run(s, acts).0)
    decreases |acts|
  {
    hide Step, Counters, Lists, Exclusive, Inherits, NoInversion, Overflows;
    if acts != [] && Enabled(s, acts[0]) {
      StepKeepsInv(s, acts[0]);
      RunKeepsInv(Step(s, acts[0]).0, acts[1..]);
    }
  }

  lemma {:induction false} FixedInRun(s: State, acts: seq<Action>)
    ensures Run(s, acts).0.base == s.base && Run(s, acts).0.flag == s.flag
    decreases |acts|
  {
    if acts != [] && WellFormed(s) && Enabled(s, acts[0]) {
      FixedInRun(Step(s, acts[0]).0, acts[1..]);
    }
  }

  /** Takes minus releases of `t` that returned success. */
  function Balance(outs: seq<Output>, t: Tid): int {
    if outs == [] then 0
    else (if outs[0] == Taken(t) then 1 else if outs[0] == Released(t) then -1 else 0) + Balance(outs[1..], t)
  }

  lemma OneBalance(out: Output, t: Tid)
    ensures Balance([out], t) == (if out == Taken(t) then 1 else if out == Released(t) then -1 else 0)
  {
  }

  lemma OwnerDepth(s: State, t: Tid)
    requires Inv(s) && t in s.depth && s.owner == Some(t) && s.place[t].Outside?
    ensures s.depth[t] == s.hold > 0
  {
  }

  lemma {:induction false} StepBalance(s: State, a: Action, t: Tid)
    requires Inv(s) && Enabled(s, a) && t in s.depth
    ensures var (s', out) := Step(s, a);
            t in s'.depth && s'.depth[t] == s.depth[t] + Balance([out], t)
  {
    hide Counters, Lists, Exclusive, Inherits, NoInversion, Enqueue, Remove, Known, Balance;
    if a.Release? && s.owner == Some(a.t) { OwnerDepth(s, a.t); }
    OneBalance(Step(s, a).1, t);
  }

  lemma {:induction false} RunBalance(s: State, acts: seq<Action>, t: Tid)
    requires Inv(s) && Shallow(s, acts) && t in s.depth
    ensures var (s', outs) := Run(s, acts);
            t in s'.depth && s'.depth[t] == s.depth[t] + Balance(outs, t)
    decreases |acts|
  {
    hide Step, Counters, Lists, Exclusive, Inherits, NoInversion, Overflows;
    if acts != [] && Enabled(s, acts[0]) {
      StepKeepsInv(s, acts[0]);
      StepBalance(s, acts[0], t);
      var (s1, out) := Step(s, acts[0]);
      RunBalance(s1, acts[1..], t);
      var outs := Run(s1, acts[1..]).1;
      assert ([out] + outs)[1..] == outs && Balance([out], t) == Balance([out], t) + Balance([], t);
    }
  }

  /** After any run at most one thread has more takes than releases, and no thread has fewer. */
  lemma {:induction false} MutualExclusion(s: State, acts: seq<Action>, t: Tid, u: Tid)
    requires Initial(s) && Shallow(s, acts) && t in s.depth && u in s.depth
    ensures var outs := Run(s, acts).1;
            Balance(outs, t) >= 0 && (Balance(outs, t) > 0 && Balance(outs, u) > 0 ==> t == u)
  {
    InitialInv(s);
    RunKeepsInv(s, acts);
    RunBalance(s, acts, t);
    RunBalance(s, acts, u);
  }

  /**
   Priority inheritance over any run: threads that do not own the mutex are at their own priority, in
   particular after a last release; the owner is at the most urgent of its own and of those that
   blocked since it acquired; and with priority-ordered waiting no waiter is more urgent than the owner.
   */
  lemma PriorityInheritance(s: State, acts: seq<Action>)
    requires Initial(s) && Shallow(s, acts)
    ensures var s' := Run(s, acts).0;
            && (forall t :: t in s'.prio && s'.owner != Some(t) ==> t in s.prio && s'.prio[t] == s.prio[t])
            && (s'.owner.Some? ==>
                  var o := s'.owner.value;
                  && o in s.prio && o in s'.prio && s'.prio[o] == Least(s.prio[o], s'.pressed)
                  && (s.flag.Prio? ==> forall w :: w in s'.queue ==> w in s'.prio && s'.prio[o] <= s'.prio[w]))
  {
    InitialInv(s);
    RunKeepsInv(s, acts);
    FixedInRun(s, acts);
  }

  // ---- When a waiter is more urgent than the owner ----

  /** No waiter is more urgent than the owner. */
  ghost predicate Clear(s: State) {
    s.owner.Some? && s.owner.value in s.prio ==>
      forall t :: t in s.queue && t in s.prio ==> s.prio[s.owner.value] <= s.prio[t]
  }

  /** The first waiter has the most urgent priority of its own of all that wait. */
  ghost predicate HeadLeast(queue: seq<Tid>, base: map<Tid, nat>)
    requires queue != []
  {
    queue[0] in base && forall t :: t in queue && t in base ==> base[queue[0]] <= base[t]
  }

  /** A last release that passes over a more urgent waiter. */
  ghost predicate Inverts(s: State, a: Action) {
    a.Release? && s.owner == Some(a.t) && s.hold == 1 && s.queue != [] && !HeadLeast(s.queue, s.base)
  }

  /** At a hand-over the new owner is at least as urgent as all left waiting exactly if the first waiter was. */
  lemma {:induction false} HandOverClear(s: State, t: Tid)
    requires Inv(s) && t in s.place && s.place[t].Outside? && s.owner == Some(t) && s.hold == 1 && s.queue != []
    ensures Clear(ReleaseStep(s, t).0) <==> HeadLeast(s.queue, s.base)
  {
    hide Counters, Lists, Exclusive, Inherits, NoInversion, NoDup, Least;
    Pieces(s);
    QueueAtBase(s);
    RestoreKeeps(t, s.original, s.pressed, s.prio, s.base);
    RemoveMembers(s.queue, s.queue[0]);
    var s' := ReleaseStep(s, t).0;
    assert s'.prio == s.base && s'.owner == Some(s.queue[0]) && s'.queue == Remove(s.queue, s.queue[0]);
  }

  /** Blocking lends enough: the owner stays at least as urgent as all that wait. */
  lemma {:induction false} BlockClear(s: State, t: Tid, timeout: int)
    requires Inv(s) && t in s.place && s.place[t].Outside? && s.owner.Some? && s.owner != Some(t) && Clear(s)
    ensures Clear(BlockOn(s, t, timeout))
  {
    hide Counters, Lists, Exclusive, Inherits, NoInversion, NoDup, Enqueue;
    var o := s.owner.value;
    var prio := if s.prio[t] < s.prio[o] then s.prio[o := s.prio[t]] else s.prio;
    OwnerNotQueued(s);
    EnqueueMembers(s.queue, t, s.flag, prio);
  }

  /** Every step but such a release keeps the owner at least as urgent as all waiters, whatever the flag. */
  lemma {:induction false} StepClear(s: State, a: Action)
    requires Inv(s) && Enabled(s, a) && !Overflows(s, a) && Clear(s)
    ensures Clear(Step(s, a).0) <==> !Inverts(s, a)
  {
    hide Inherits, NoInversion, Exclusive, Least, BlockOn, Enqueue;
    match a
    case Take(t, timeout) =>
      hide Lists;
      var s1 := s.(error := s.error[t := EOK]);
      if s.owner != Some(t) && s.value == 0 && timeout != 0 {
        ErrorKeeps(s, t, EOK);
        BlockClear(s1, t, timeout);
      }
    case Continue(t) =>
    case Release(t) =>
      hide Lists;
      if s.owner == Some(t) && s.hold == 1 {
        if s.queue == [] {
          assert Step(s, a).0.queue == [];
        } else {
          HandOverClear(s, t);
        }
      }
    case Timeout(t) =>
      RemoveMembers(s.queue, t);
  }

  /** No last release of the run passes over a more urgent waiter. */
  ghost predicate Fair(s: State, acts: seq<Action>)
    decreases |acts|
  {
    acts == [] || !WellFormed(s) || !Enabled(s, acts[0]) ||
    (!Inverts(s, acts[0]) && Fair(Step(s, acts[0]).0, acts[1..]))
  }

  lemma {:induction false} PrefixStep(s: State, acts: seq<Action>, k: nat)
    requires 0 < k <= |acts| && WellFormed(s) && Enabled(s, acts[0])
    ensures Run(s, acts[..k]).0 == Run(Step(s, acts[0]).0, acts[1..][..k - 1]).0
  {
    hide Step, Enabled, WellFormed;
    assert acts[..k][0] == acts[0] && acts[..k][1..] == acts[1..][..k - 1];
  }

  /**
   Inversion over whole runs, for both flags: at no point of a run is a waiter more urgent than the owner if and
   only if no last release passes over a more urgent waiter.
   */
  lemma {:induction false} ClearIffFair(s: State, acts: seq<Action>)
    requires Inv(s) && Shallow(s, acts) && Clear(s)
    ensures (forall k :: 0 <= k <= |acts| ==> Clear(Run(s, acts[..k]).0)) <==> Fair(s, acts)
    decreases |acts|
  {
    hide Step, Counters, Lists, Exclusive, Inherits, NoInversion, Overflows, Clear, Inverts;
    assert acts[..0] == [];
    if acts != [] && Enabled(s, acts[0]) {
      var s1 := Step(s, acts[0]).0;
      StepKeepsInv(s, acts[0]);
      StepClear(s, acts[0]);
      forall k | 0 < k <= |acts| ensures Run(s, acts[..k]).0 == Run(s1, acts[1..][..k - 1]).0 {
        PrefixStep(s, acts, k);
      }
      if Clear(s1) {
        ClearIffFair(s1, acts[1..]);
        LaterPrefixes(s, s1, acts);
      } else {
        assert acts[1..][..0] == [] && Run(s1, []).0 == s1;
        assert Run(s, acts[..1]).0 == s1;
      }
    } else {
      forall k | 0 <= k <= |acts| ensures Run(s, acts[..k]).0 == s {
        if k > 0 { assert acts[..k][0] == acts[0]; }
      }
    }
  }

  lemma {:induction false} LaterPrefixes(s: State, s1: State, acts: seq<Action>)
    requires acts != [] && Clear(s)
    requires forall k :: 0 < k <= |acts| ==> Run(s, acts[..k]).0 == Run(s1, acts[1..][..k - 1]).0
    ensures (forall k :: 0 <= k <= |acts| ==> Clear(Run(s, acts[..k]).0))
            <==> forall k :: 0 <= k <= |acts| - 1 ==> Clear(Run(s1, acts[1..][..k]).0)
  {
    hide Clear, Run;
    assert acts[..0] == [] && Run(s, []).0 == s by { RunNothing(s); }
    if forall k :: 0 <= k <= |acts| ==> Clear(Run(s, acts[..k]).0) {
      forall k | 0 <= k <= |acts| - 1 ensures Clear(Run(s1, acts[1..][..k]).0) {
        assert Run(s, acts[..k + 1]).0 == Run(s1, acts[1..][..k + 1 - 1]).0;
      }
    }
  }

  lemma RunNothing(s: State)
    ensures Run(s, []).0 == s
  {
  }

  /** With priority-ordered waiting every run is fair. */
  lemma {:induction false} PrioIsFair(s: State, acts: seq<Action>)
    requires Inv(s) && Shallow(s, acts) && s.flag.Prio?
    ensures Fair(s, acts)
    decreases |acts|
  {
    hide Step, Counters, Lists, Exclusive, Inherits, Overflows;
    if acts != [] && Enabled(s, acts[0]) {
      StepKeepsInv(s, acts[0]);
      FixedInRun(s, acts[..1]);
      assert acts[..1][1..] == [] && Run(s, acts[..1]).0 == Run(Step(s, acts[0]).0, []).0;
      PrioIsFair(Step(s, acts[0]).0, acts[1..]);
      if s.queue != [] {
        QueueAtBase(s);
        forall t | t in s.queue && t in s.base ensures s.base[s.queue[0]] <= s.base[t] {
          var k :| 0 <= k < |s.queue| && s.queue[k] == t;
          assert s.queue[0] in s.queue;
        }
        assert s.queue[0] in s.queue;
      }
    }
  }

  /** From `rt_mutex_init`: exactly the fair runs are free of inversion, and with priority-ordered waiting all are. */
  lemma {:induction false} InversionInRuns(s: State, acts: seq<Action>)
    requires Initial(s) && Shallow(s, acts)
    ensures (forall k :: 0 <= k <= |acts| ==> Clear(Run(s, acts[..k]).0)) <==> Fair(s, acts)
    ensures s.flag.Prio? ==> Fair(s, acts)
  {
    InitialInv(s);
    ClearIffFair(s, acts);
    if s.flag.Prio? { PrioIsFair(s, acts); }
  }

  // ---- A run with first-in-first-out waiting that is not fair ----

  lemma TakeFree(s: State, t: Tid)
    requires WellFormed(s) && t in s.prio && s.owner == None && s.value > 0 && s.hold == 0
    ensures var s' := TakeStep(s, t, -1).0;
            && WellFormed(s') && s'.owner == Some(t) && s'.hold == 1 && s'.value == s.value - 1
            && s'.original == s.prio[t]
            && s'.queue == s.queue && s'.prio == s.prio && s'.place == s.place && s'.flag == s.flag
  {
  }

  lemma TakeBusy(s: State, t: Tid, o: Tid)
    requires WellFormed(s) && t in s.prio && s.owner == Some(o) && o != t && s.value == 0 && s.flag == Fifo
    ensures var s' := TakeStep(s, t, -1).0;
            && WellFormed(s') && s'.owner == s.owner && s'.hold == s.hold && s'.value == s.value
            && s'.original == s.original
            && s'.queue == s.queue + [t] && s'.prio == s.prio[o := s'.prio[o]] && s'.place == s.place[t := Waiting]
            && s'.flag == s.flag
  {
    hide Enqueue;
    var prio := if s.prio[t] < s.prio[o] then s.prio[o := s.prio[t]] else s.prio;
    EnqueueFifo(s.queue, t, prio);
  }

  /**
   With first-in-first-out waiting, whenever a less urgent thread `b` and then a more urgent `c` block
   on the owner, the release makes `b` the owner with `c` waiting behind it.
   */
  lemma {:induction false} FifoInversion(s: State, a: Tid, b: Tid, c: Tid)
    requires Initial(s) && s.flag == Fifo && a in s.prio && b in s.prio && c in s.prio
    requires a != b && a != c && s.prio[c] < s.prio[b]
    ensures var s' := Run(s, [Take(a, -1), Take(b, -1), Take(c, -1), Release(a)]).0;
            s'.owner == Some(b) && s'.queue == [c] && b in s'.prio && c in s'.prio && s'.prio[c] < s'.prio[b]
  {
    hide TakeStep, ReleaseStep, Enqueue;
    TakeFree(s, a);
    var s1 := TakeStep(s, a, -1).0;
    TakeBusy(s1, b, a);
    var s2 := TakeStep(s1, b, -1).0;
    TakeBusy(s2, c, a);
    var s3 := TakeStep(s2, c, -1).0;
    LastRelease(s3, a);
    hide Initial;
    FourSteps(s, s1, s2, s3, ReleaseStep(s3, a).0, Take(a, -1), Take(b, -1), Take(c, -1), Release(a));
  }

  lemma LastRelease(s: State, a: Tid)
    requires WellFormed(s) && s.owner == Some(a) && s.hold == 1 && s.queue != []
    ensures var s' := ReleaseStep(s, a).0;
            s'.owner == Some(s.queue[0]) && s'.queue == s.queue[1..] && s'.prio == s.prio[a := s.original]
  {
  }

  lemma {:induction false} FourSteps(s0: State, s1: State, s2: State, s3: State, s4: State, a1: Action, a2: Action,
                                     a3: Action, a4: Action)
    requires WellFormed(s0) && Enabled(s0, a1) && Step(s0, a1).0 == s1
    requires WellFormed(s1) && Enabled(s1, a2) && Step(s1, a2).0 == s2
    requires WellFormed(s2) && Enabled(s2, a3) && Step(s2, a3).0 == s3
    requires WellFormed(s3) && Enabled(s3, a4) && Step(s3, a4).0 == s4
    ensures Run(s0, [a1, a2, a3, a4]).0 == s4
  {
    hide Step, Enabled, WellFormed;
    assert [a1, a2, a3, a4][1..] == [a2, a3, a4] && [a2, a3, a4][1..] == [a3, a4] && [a3, a4][1..] == [a4]
           && [a4][1..] == [];
    assert Run(s4, []).0 == s4;
    assert Run(s3, [a4]).0 == s4;
    assert Run(s2, [a3, a4]).0 == s4;
    assert Run(s1, [a2, a3, a4]).0 == s4;
  }
}
