/**
 Message queues as a step system.  Send and receive take their slot and link or free it under the
 interrupt lock, but copy the bytes without it, so copies of any number of senders and receivers
 interleave byte by byte with every other step. A slot is at any time in the free list, in the queue, or held by
 one thread in flight; what a queued slot carries is what its sender was given; and as long as a receiver waits,
 there are no more messages than receivers woken and yet to look.
 */
module MessageQueue {
  import opened Common
  import opened Waiting

  type Slot = nat
  type Bytes = seq<int>

  datatype Place =
    | Idle
    | Filling(slot: Slot, msg: Bytes, done: nat, urgent: bool)
    | Waiting(size: nat, timeout: int)
    | Reading(slot: Slot, size: nat, buffer: Bytes)

  /**
   `free` and `queue` are the slots along the two lists, head first; `data` the bytes of each slot.
   Of each thread the system keeps its place in a call, its error code and whether its timer runs.
   `sent` is a history variable: the message last linked through each slot.
   */
  datatype State = State(
    msgSize: nat, maxMsgs: nat, flag: Flag,
    free: seq<Slot>, queue: seq<Slot>,
    data: seq<Bytes>, sent: seq<Bytes>,
    receivers: seq<Tid>, prio: map<Tid, nat>,
    place: map<Tid, Place>, error: map<Tid, Err>, timers: set<Tid>)

  datatype Action =
    | Reserve(t: Tid, msg: Bytes, urgent: bool)
    | CopyIn(t: Tid)
    | Link(t: Tid)
    | Recv(t: Tid, size: nat, timeout: int)
    | Continue(t: Tid, elapsed: nat)
    | CopyOut(t: Tid)
    | Release(t: Tid)
    | Timeout(t: Tid)
    | Resume(t: Tid)
    | ChangePriority(t: Tid, p: nat)
    | Reset

  /** `Linked` and `Taken` are the points where a message enters and leaves the queue. */
  datatype Output =
    | Linked(msg: Bytes, urgent: bool)
    | Taken(msg: Bytes)
    | Delivered(buffer: Bytes)
    | Cleared
    | Refused(error: Err)
    | Blocked
    | Quiet

  // ---- The steps ----

  /** How many bytes a receiver with a buffer of `size` copies. */
  function Amount(msgSize: nat, size: nat): nat {
    if size > msgSize then msgSize else size
  }

  predicate PlaceOk(msgSize: nat, maxMsgs: nat, p: Place) {
    && (p.Filling? ==> p.slot < maxMsgs && p.done <= |p.msg| <= msgSize)
    && (p.Reading? ==> p.slot < maxMsgs && |p.buffer| <= Amount(msgSize, p.size))
  }

  predicate WellFormed(s: State) {
    && s.prio.Keys == s.place.Keys == s.error.Keys && Known(s.receivers, s.prio)
    && |s.data| == |s.sent| == s.maxMsgs
    && (forall x :: x in s.free ==> x < s.maxMsgs) && (forall x :: x in s.queue ==> x < s.maxMsgs)
    && (forall x | 0 <= x < s.maxMsgs :: |s.data[x]| == s.msgSize)
    && (forall t | t in s.place :: PlaceOk(s.msgSize, s.maxMsgs, s.place[t]))
  }

  /** `rt_thread_resume` */
  function Wake(s: State, t: Tid): State {
    s.(receivers := Remove(s.receivers, t), timers := s.timers - {t})
  }

  function WakeHead(s: State): State {
    if s.receivers == [] then s else Wake(s, s.receivers[0])
  }

  /** First critical section of `rt_mq_send` and `rt_mq_urgent`: take a slot off the free list. */
  function ReserveStep(s: State, t: Tid, msg: Bytes, urgent: bool): (State, Output) {
    if |msg| > s.msgSize then (s, Refused(ERROR))
    else if s.free == [] then (s, Refused(EFULL))
    else (s.(free := s.free[1..], place := s.place[t := Filling(s.free[0], msg, 0, urgent)]), Quiet)
  }

  /** One byte of the sender's copy. */
  function CopyInStep(s: State, t: Tid): State
    requires WellFormed(s) && Enabled(s, CopyIn(t))
  {
    var p := s.place[t];
    s.(data := s.data[p.slot := s.data[p.slot][p.done := p.msg[p.done]]], place := s.place[t := p.(done := p.done + 1)])
  }

  /** The queue with a slot linked at the tail, or at the head if urgent. */
  function Linking(queue: seq<Slot>, x: Slot, urgent: bool): seq<Slot> {
    if urgent then [x] + queue else queue + [x]
  }

  /** Second critical section of a send: link the slot and wake a receiver. */
  function LinkStep(s: State, t: Tid): (State, Output)
    requires WellFormed(s) && Enabled(s, Link(t))
  {
    var p := s.place[t];
    (WakeHead(s.(queue := Linking(s.queue, p.slot, p.urgent), sent := s.sent[p.slot := p.msg],
                 place := s.place[t := Idle])),
     Linked(p.msg, p.urgent))
  }

  /** `rt_ipc_list_suspend`, the error cleared, the timer started if wanted. */
  function Suspend(s: State, t: Tid, size: nat, timeout: int): State
    requires WellFormed(s) && t in s.place
  {
    s.(receivers := Enqueue(s.receivers, t, s.flag, s.prio), place := s.place[t := Waiting(size, timeout)],
       error := s.error[t := EOK], timers := if timeout > 0 then s.timers + {t} else s.timers - {t})
  }

  /** From the loop test of `rt_mq_recv` to suspending, giving up, or taking the head off the queue. */
  function RecvLoop(s: State, t: Tid, size: nat, timeout: int): (State, Output)
    requires WellFormed(s) && t in s.place
  {
    if s.queue == [] then
      if timeout == 0 then (s.(place := s.place[t := Idle], error := s.error[t := ETIMEOUT]), Refused(ETIMEOUT))
      else (Suspend(s, t, size, timeout), Blocked)
    else
      var x := s.queue[0];
      assert x in s.queue;
      (s.(queue := s.queue[1..], place := s.place[t := Reading(x, size, [])]), Taken(s.sent[x]))
  }

  function RecvStep(s: State, t: Tid, size: nat, timeout: int): (State, Output)
    requires WellFormed(s) && t in s.place
  {
    if s.queue == [] && timeout == 0 then (s, Refused(ETIMEOUT)) else RecvLoop(s, t, size, timeout)
  }

  function ContinueStep(s: State, t: Tid, elapsed: nat): (State, Output)
    requires WellFormed(s) && t in s.place && s.place[t].Waiting?
  {
    if s.error[t] != EOK then (s.(place := s.place[t := Idle]), Refused(s.error[t]))
    else RecvLoop(s, t, s.place[t].size, Remaining(s.place[t].timeout, elapsed))
  }

  /** One byte of the receiver's copy. */
  function CopyOutStep(s: State, t: Tid): State
    requires WellFormed(s) && Enabled(s, CopyOut(t))
  {
    var p := s.place[t];
    s.(place := s.place[t := p.(buffer := p.buffer + [s.data[p.slot][|p.buffer|]])])
  }

  /** Last critical section of `rt_mq_recv`: the slot goes back to the free list. */
  function ReleaseStep(s: State, t: Tid): (State, Output)
    requires t in s.place && s.place[t].Reading?
  {
    (s.(free := [s.place[t].slot] + s.free, place := s.place[t := Idle]), Delivered(s.place[t].buffer))
  }

  function Reverse(q: seq<Slot>): seq<Slot> {
    if q == [] then [] else Reverse(q[1..]) + [q[0]]
  }

  /** `rt_mq_control` reset: wake all with an error, then move every queued slot to the free list. */
  function ResetStep(s: State): State {
    s.(queue := [], free := Reverse(s.queue) + s.free, receivers := [],
       error := map t | t in s.error :: if t in s.receivers then ERROR else s.error[t],
       timers := set t | t in s.timers && t !in s.receivers)
  }

  predicate Enabled(s: State, a: Action) {
    match a
    case Reserve(t, msg, _) => t in s.place && s.place[t].Idle? && |msg| > 0
    case CopyIn(t) => t in s.place && s.place[t].Filling? && s.place[t].done < |s.place[t].msg|
    case Link(t) => t in s.place && s.place[t].Filling? && s.place[t].done == |s.place[t].msg|
    case Recv(t, size, _) => t in s.place && s.place[t].Idle? && size > 0
    case Continue(t, _) => t in s.place && s.place[t].Waiting? && t !in s.receivers
    case CopyOut(t) => t in s.place && s.place[t].Reading? && |s.place[t].buffer| < Amount(s.msgSize, s.place[t].size)
    case Release(t) => t in s.place && s.place[t].Reading? && |s.place[t].buffer| == Amount(s.msgSize, s.place[t].size)
    case Timeout(t) => t in s.timers
    case Resume(t) => t in s.receivers
    case ChangePriority(t, _) => t in s.place
    case Reset => true
  }

  function Step(s: State, a: Action): (State, Output)
    requires WellFormed(s) && Enabled(s, a)
  {
    match a
    case Reserve(t, msg, urgent) => ReserveStep(s, t, msg, urgent)
    case CopyIn(t) => (CopyInStep(s, t), Quiet)
    case Link(t) => LinkStep(s, t)
    case Recv(t, size, timeout) => RecvStep(s, t, size, timeout)
    case Continue(t, elapsed) => ContinueStep(s, t, elapsed)
    case CopyOut(t) => (CopyOutStep(s, t), Quiet)
    case Release(t) => ReleaseStep(s, t)
    case Timeout(t) => (Wake(s.(error := s.error[t := ETIMEOUT]), t), Quiet)
    case Resume(t) => (Wake(s, t), Quiet)
    case ChangePriority(t, p) => (s.(prio := s.prio[t := p]), Quiet)
    case Reset => (ResetStep(s), Cleared)
  }

  // ---- Slot ownership ----

  function SlotOf(p: Place): Option<Slot> {
    match p
    case Filling(x, _, _, _) => Some(x)
    case Reading(x, _, _) => Some(x)
    case _ => None
  }

  predicate Holds(place: map<Tid, Place>, t: Tid, x: Slot) {
    t in place && SlotOf(place[t]) == Some(x)
  }

  /** Slots are never shared: free list, queue and the slots in flight are pairwise apart ... */
  ghost predicate Apart(free: seq<Slot>, queue: seq<Slot>, place: map<Tid, Place>) {
    && NoDup(free) && NoDup(queue)
    && (forall x :: x in free ==> x !in queue)
    && (forall t: Tid, x: Slot {:trigger Holds(place, t, x)} :: Holds(place, t, x) ==> x !in free && x !in queue)
    && (forall t: Tid, u: Tid, x: Slot {:trigger Holds(place, t, x), Holds(place, u, x)} ::
          Holds(place, t, x) && Holds(place, u, x) ==> t == u)
  }

  /** ... and never leaked: every slot of the pool is in one of those places. */
  ghost predicate Covered(max: nat, free: seq<Slot>, queue: seq<Slot>, place: map<Tid, Place>) {
    forall x: Slot {:trigger x in free} {:trigger x in queue} :: x < max ==>
      x in free || x in queue || exists t: Tid :: Holds(place, t, x)
  }

  ghost predicate Owned(max: nat, free: seq<Slot>, queue: seq<Slot>, place: map<Tid, Place>) {
    Apart(free, queue, place) && Covered(max, free, queue, place)
  }

  /** Who holds what after thread `t` moves on to place `p`. */
  lemma HoldsAfter(place: map<Tid, Place>, t: Tid, p: Place)
    ensures forall u: Tid, x: Slot {:trigger Holds(place[t := p], u, x)} {:trigger Holds(place, u, x)} ::
      Holds(place[t := p], u, x) <==> (if u == t then SlotOf(p) == Some(x) else Holds(place, u, x))
  {
  }

  lemma OwnedReserve(max: nat, free: seq<Slot>, queue: seq<Slot>, place: map<Tid, Place>, t: Tid, p: Place)
    requires Owned(max, free, queue, place) && free != []
    requires t in place && SlotOf(place[t]) == None && SlotOf(p) == Some(free[0])
    ensures Owned(max, free[1..], queue, place[t := p])
  {
    HoldsAfter(place, t, p);
    assert free == [free[0]] + free[1..];
    assert Holds(place[t := p], t, free[0]);
  }

  lemma OwnedTake(max: nat, free: seq<Slot>, queue: seq<Slot>, place: map<Tid, Place>, t: Tid, p: Place)
    requires Owned(max, free, queue, place) && queue != []
    requires t in place && SlotOf(place[t]) == None && SlotOf(p) == Some(queue[0])
    ensures Owned(max, free, queue[1..], place[t := p])
  {
    HoldsAfter(place, t, p);
    assert queue == [queue[0]] + queue[1..];
    assert Holds(place[t := p], t, queue[0]);
  }

  lemma OwnedRelease(max: nat, free: seq<Slot>, queue: seq<Slot>, place: map<Tid, Place>, t: Tid, x: Slot)
    requires Owned(max, free, queue, place) && Holds(place, t, x)
    ensures Owned(max, [x] + free, queue, place[t := Idle])
  {
    HoldsAfter(place, t, Idle);
    assert forall y :: y in [x] + free <==> y == x || y in free;
  }

  lemma OwnedLink(max: nat, free: seq<Slot>, queue: seq<Slot>, place: map<Tid, Place>, t: Tid, x: Slot, urgent: bool)
    requires Owned(max, free, queue, place) && Holds(place, t, x)
    ensures Owned(max, free, Linking(queue, x, urgent), place[t := Idle])
  {
    HoldsAfter(place, t, Idle);
    var q := Linking(queue, x, urgent);
    assert forall y :: y in q <==> y == x || y in queue;
    assert x !in queue && NoDup(q);
  }

  lemma OwnedSame(max: nat, free: seq<Slot>, queue: seq<Slot>, place: map<Tid, Place>, t: Tid, p: Place)
    requires Owned(max, free, queue, place) && t in place && SlotOf(place[t]) == SlotOf(p)
    ensures Owned(max, free, queue, place[t := p])
  {
    HoldsAfter(place, t, p);
    assert forall u: Tid, x: Slot {:trigger Holds(place[t := p], u, x)} {:trigger Holds(place, u, x)} ::
      Holds(place[t := p], u, x) <==> Holds(place, u, x);
  }

  lemma OwnedReset(max: nat, free: seq<Slot>, queue: seq<Slot>, place: map<Tid, Place>)
    requires Owned(max, free, queue, place)
    ensures Owned(max, Reverse(queue) + free, [], place)
  {
    ReverseMembers(queue);
    var r := Reverse(queue);
    assert forall y :: y in r + free <==> y in queue || y in free;
    assert NoDup(r + free) by {
      forall i, j | 0 <= i < j < |r + free| ensures (r + free)[i] != (r + free)[j] {
        if i < |r| <= j { assert (r + free)[i] in r && (r + free)[j] in free; }
      }
    }
  }

  lemma {:induction false} ReverseMembers(q: seq<Slot>)
    ensures forall x :: x in Reverse(q) <==> x in q
    ensures NoDup(q) ==> NoDup(Reverse(q))
  {
    if q != [] {
      ReverseMembers(q[1..]);
      assert q == [q[0]] + q[1..];
      assert NoDup(q) ==> q[0] !in q[1..];
    }
  }

  // ---- Message contents ----

  /** The slot holds the bytes of the message linked through it. */
  ghost predicate Carries(msgSize: nat, data: seq<Bytes>, sent: seq<Bytes>, x: Slot) {
    x < |data| == |sent| && |sent[x]| <= msgSize == |data[x]| && data[x][..|sent[x]|] == sent[x]
  }

  /** A transfer under way has copied what it should so far. */
  ghost predicate TransferOk(msgSize: nat, data: seq<Bytes>, sent: seq<Bytes>, p: Place)
    requires PlaceOk(msgSize, |data|, p) && forall x | 0 <= x < |data| :: |data[x]| == msgSize
  {
    && (p.Filling? ==> data[p.slot][..p.done] == p.msg[..p.done])
    && (p.Reading? ==> Carries(msgSize, data, sent, p.slot) && p.buffer == data[p.slot][..|p.buffer|])
  }

  ghost predicate Intact(msgSize: nat, data: seq<Bytes>, sent: seq<Bytes>, queue: seq<Slot>, place: map<Tid, Place>) {
    && (forall x | 0 <= x < |data| :: |data[x]| == msgSize)
    && (forall t | t in place :: PlaceOk(msgSize, |data|, place[t]))
    && (forall x :: x in queue ==> Carries(msgSize, data, sent, x))
    && (forall t :: t in place ==> TransferOk(msgSize, data, sent, place[t]))
  }

  lemma IntactPlace(n: nat, data: seq<Bytes>, sent: seq<Bytes>, queue: seq<Slot>, place: map<Tid, Place>, t: Tid,
                    p: Place)
    requires Intact(n, data, sent, queue, place) && PlaceOk(n, |data|, p) && TransferOk(n, data, sent, p)
    ensures Intact(n, data, sent, queue, place[t := p])
  {
  }

  lemma IntactSubset(n: nat, data: seq<Bytes>, sent: seq<Bytes>, q: seq<Slot>, q': seq<Slot>, place: map<Tid, Place>)
    requires Intact(n, data, sent, q, place) && forall x :: x in q' ==> x in q
    ensures Intact(n, data, sent, q', place)
  {
  }

  /** A byte stored by a sender disturbs no linked message and no other transfer. */
  lemma IntactCopyIn(n: nat, data: seq<Bytes>, sent: seq<Bytes>, queue: seq<Slot>, place: map<Tid, Place>, t: Tid)
    requires Intact(n, data, sent, queue, place) && t in place && place[t].Filling? && place[t].done < |place[t].msg|
    requires forall u: Tid, x: Slot {:trigger Holds(place, u, x)} ::
             Holds(place, u, x) ==> x !in queue && (x == place[t].slot ==> u == t)
    ensures var p := place[t];
            var data' := data[p.slot := data[p.slot][p.done := p.msg[p.done]]];
            Intact(n, data', sent, queue, place[t := p.(done := p.done + 1)])
  {
    var p := place[t];
    var data' := data[p.slot := data[p.slot][p.done := p.msg[p.done]]];
    assert Holds(place, t, p.slot);
    assert data'[p.slot][..p.done + 1] == data[p.slot][..p.done] + [p.msg[p.done]];
    assert p.msg[..p.done + 1] == p.msg[..p.done] + [p.msg[p.done]];
    forall x | x in queue ensures Carries(n, data', sent, x) { assert Carries(n, data, sent, x); }
    forall u | u in place && u != t ensures TransferOk(n, data', sent, place[u]) {
      var q := place[u];
      assert TransferOk(n, data, sent, q);
      if q.Filling? || q.Reading? { assert Holds(place, u, q.slot); }
    }
  }

  lemma IntactLink(n: nat, data: seq<Bytes>, sent: seq<Bytes>, queue: seq<Slot>, place: map<Tid, Place>, t: Tid)
    requires Intact(n, data, sent, queue, place) && |sent| == |data|
    requires t in place && place[t].Filling? && place[t].done == |place[t].msg|
    requires forall u: Tid, x: Slot {:trigger Holds(place, u, x)} ::
             Holds(place, u, x) ==> x !in queue && (x == place[t].slot ==> u == t)
    ensures var p := place[t];
            Intact(n, data, sent[p.slot := p.msg], Linking(queue, p.slot, p.urgent), place[t := Idle])
  {
    var p := place[t];
    var sent' := sent[p.slot := p.msg];
    assert Holds(place, t, p.slot);
    assert p.msg[..|p.msg|] == p.msg;
    forall x | x in Linking(queue, p.slot, p.urgent) ensures Carries(n, data, sent', x) {
      if x != p.slot { assert Carries(n, data, sent, x); }
    }
    forall u | u in place && u != t ensures TransferOk(n, data, sent', place[u]) {
      var q := place[u];
      assert TransferOk(n, data, sent, q);
      if q.Filling? || q.Reading? { assert Holds(place, u, q.slot); }
    }
  }

  // ---- Waiting receivers ----

  ghost predicate Lists(receivers: seq<Tid>, place: map<Tid, Place>, error: map<Tid, Err>, timers: set<Tid>) {
    && NoDup(receivers)
    && (forall t :: t in receivers ==> t in place && t in error && place[t].Waiting? && error[t] == EOK)
    && (forall t :: t in timers ==> t in receivers)
  }

  /** Receivers resumed without error that have not re-checked the queue yet. */
  function Woken(receivers: seq<Tid>, place: map<Tid, Place>, error: map<Tid, Err>): set<Tid> {
    set t | t in place && t in error && place[t].Waiting? && error[t] == EOK && t !in receivers
  }

  /** Waiting receivers imply that every queued message has a woken receiver on its way. */
  ghost predicate Awake(count: nat, receivers: seq<Tid>, place: map<Tid, Place>, error: map<Tid, Err>) {
    receivers != [] ==> count <= |Woken(receivers, place, error)|
  }

  ghost predicate Inv(s: State) {
    && WellFormed(s)
    && Owned(s.maxMsgs, s.free, s.queue, s.place)
    && Intact(s.msgSize, s.data, s.sent, s.queue, s.place)
    && Lists(s.receivers, s.place, s.error, s.timers)
    && Awake(|s.queue|, s.receivers, s.place, s.error)
  }

  /** One more message, one more woken receiver. */
  lemma AwakeWake(count: nat, receivers: seq<Tid>, place: map<Tid, Place>, error: map<Tid, Err>, timers: set<Tid>)
    requires Lists(receivers, place, error, timers) && Awake(count, receivers, place, error) && receivers != []
    ensures Lists(Remove(receivers, receivers[0]), place, error, timers - {receivers[0]})
    ensures Awake(count + 1, Remove(receivers, receivers[0]), place, error)
  {
    var h := receivers[0];
    var rest := Remove(receivers, h);
    RemoveMembers(receivers, h);
    assert Woken(rest, place, error) == Woken(receivers, place, error) + {h};
    assert h !in Woken(receivers, place, error);
  }

  /** A thread outside the list moves to a place where it does not wait, taking a message if it was woken for one. */
  lemma AwakeLeave(count: nat, receivers: seq<Tid>, place: map<Tid, Place>, error: map<Tid, Err>, timers: set<Tid>,
                   t: Tid, p: Place, e: Err, left: nat)
    requires Lists(receivers, place, error, timers) && Awake(count, receivers, place, error)
    requires t !in receivers && !p.Waiting? && t in place && t in error
    requires left == 0 || left < count || (left == count && (!place[t].Waiting? || error[t] != EOK))
    ensures Lists(receivers, place[t := p], error[t := e], timers)
    ensures Awake(left, receivers, place[t := p], error[t := e])
  {
    var w := Woken(receivers, place, error);
    assert Woken(receivers, place[t := p], error[t := e]) == w - {t};
    assert t !in w ==> w - {t} == w;
  }

  lemma ListsSuspend(q: seq<Tid>, place: map<Tid, Place>, error: map<Tid, Err>, timers: set<Tid>,
                     t: Tid, p: Place, flag: Flag, prio: map<Tid, nat>, timers': set<Tid>)
    requires Lists(q, place, error, timers) && t in prio && Known(q, prio) && t !in q
    requires p.Waiting? && timers' <= timers + {t}
    ensures Lists(Enqueue(q, t, flag, prio), place[t := p], error[t := EOK], timers')
    ensures Known(Enqueue(q, t, flag, prio), prio)
  {
    EnqueueMembers(q, t, flag, prio);
  }

  lemma AwakeRemove(count: nat, receivers: seq<Tid>, place: map<Tid, Place>, error: map<Tid, Err>, timers: set<Tid>,
                    t: Tid, e: Err)
    requires Lists(receivers, place, error, timers) && Awake(count, receivers, place, error) && t in receivers
    ensures Lists(Remove(receivers, t), place, error[t := e], timers - {t})
    ensures Awake(count, Remove(receivers, t), place, error[t := e])
  {
    RemoveMembers(receivers, t);
    var w, w' := Woken(receivers, place, error), Woken(Remove(receivers, t), place, error[t := e]);
    assert w <= w';
    SubsetSize(w, w');
  }

  // ---- What each step keeps ----

  /** The invariant of a state, piece by piece. */
  lemma Pieces(s: State)
    requires Inv(s)
    ensures Owned(s.maxMsgs, s.free, s.queue, s.place)
    ensures Intact(s.msgSize, s.data, s.sent, s.queue, s.place)
    ensures Lists(s.receivers, s.place, s.error, s.timers)
    ensures Awake(|s.queue|, s.receivers, s.place, s.error)
    ensures forall t :: t in s.receivers ==> t in s.place && s.place[t].Waiting?
    ensures forall u: Tid, x: Slot {:trigger Holds(s.place, u, x)} :: Holds(s.place, u, x) ==>
      x !in s.queue && forall v: Tid {:trigger Holds(s.place, v, x)} :: Holds(s.place, v, x) ==> u == v
    ensures s.queue != [] ==> Carries(s.msgSize, s.data, s.sent, s.queue[0])
    ensures forall t :: t in s.place ==> TransferOk(s.msgSize, s.data, s.sent, s.place[t])
  {
  }

  lemma {:induction false} ReserveKeeps(s: State, t: Tid, msg: Bytes, urgent: bool)
    requires Inv(s) && Enabled(s, Reserve(t, msg, urgent))
    ensures Inv(ReserveStep(s, t, msg, urgent).0)
  {
    hide Owned, Intact, Lists, Awake;
    Pieces(s);
    if |msg| <= s.msgSize && s.free != [] {
      var p := Filling(s.free[0], msg, 0, urgent);
      assert s.free[0] in s.free && s.free == [s.free[0]] + s.free[1..];
      assert forall x :: x in s.free[1..] ==> x in s.free;
      assert s.data[s.free[0]][..0] == msg[..0];
      OwnedReserve(s.maxMsgs, s.free, s.queue, s.place, t, p);
      IntactPlace(s.msgSize, s.data, s.sent, s.queue, s.place, t, p);
      BusyMoves(|s.queue|, s.receivers, s.place, s.error, s.timers, t, p);
    }
  }

  /** Moves between places outside the wait loop leave the waiting side alone. */
  lemma BusyMoves(count: nat, receivers: seq<Tid>, place: map<Tid, Place>, error: map<Tid, Err>, timers: set<Tid>,
                  t: Tid, p: Place)
    requires t in place && !place[t].Waiting? && !p.Waiting?
    requires Lists(receivers, place, error, timers) && Awake(count, receivers, place, error)
    ensures Lists(receivers, place[t := p], error, timers) && Awake(count, receivers, place[t := p], error)
  {
    assert Woken(receivers, place[t := p], error) == Woken(receivers, place, error);
  }

  lemma {:induction false} CopyInKeeps(s: State, t: Tid)
    requires Inv(s) && Enabled(s, CopyIn(t))
    ensures Inv(CopyInStep(s, t))
  {
    hide Owned, Intact, Lists, Awake;
    Pieces(s);
    var p := s.place[t];
    var p' := p.(done := p.done + 1);
    assert Holds(s.place, t, p.slot);
    OwnedSame(s.maxMsgs, s.free, s.queue, s.place, t, p');
    IntactCopyIn(s.msgSize, s.data, s.sent, s.queue, s.place, t);
    BusyMoves(|s.queue|, s.receivers, s.place, s.error, s.timers, t, p');
  }

  /** A finished sender: its slot joins the queue at one end or the other, and a receiver is woken for it. */
  lemma {:induction false} LinkKeeps(s: State, t: Tid)
    requires Inv(s) && Enabled(s, Link(t))
    ensures Inv(LinkStep(s, t).0)
  {
    hide Owned, Intact, Lists, Awake;
    Pieces(s);
    var p := s.place[t];
    assert Holds(s.place, t, p.slot);
    OwnedLink(s.maxMsgs, s.free, s.queue, s.place, t, p.slot, p.urgent);
    IntactLink(s.msgSize, s.data, s.sent, s.queue, s.place, t);
    BusyMoves(|s.queue|, s.receivers, s.place, s.error, s.timers, t, Idle);
    assert forall x :: x in Linking(s.queue, p.slot, p.urgent) ==> x == p.slot || x in s.queue;
    AwakeNext(|s.queue|, s.receivers, s.place[t := Idle], s.error, s.timers);
  }

  lemma AwakeNext(count: nat, receivers: seq<Tid>, place: map<Tid, Place>, error: map<Tid, Err>, timers: set<Tid>)
    requires Lists(receivers, place, error, timers) && Awake(count, receivers, place, error)
    ensures if receivers == [] then Awake(count + 1, receivers, place, error)
            else Lists(Remove(receivers, receivers[0]), place, error, timers - {receivers[0]})
                 && Awake(count + 1, Remove(receivers, receivers[0]), place, error)
                 && forall t :: t in Remove(receivers, receivers[0]) ==> t in receivers
  {
    if receivers != [] {
      AwakeWake(count, receivers, place, error, timers);
      RemoveMembers(receivers, receivers[0]);
    }
  }

  lemma {:induction false} TakeKeeps(s: State, t: Tid, size: nat)
    requires Inv(s) && t in s.place && t !in s.receivers && s.queue != []
    requires s.place[t].Idle? || (s.place[t].Waiting? && s.error[t] == EOK)
    ensures Inv(s.(queue := s.queue[1..], place := s.place[t := Reading(s.queue[0], size, [])]))
  {
    hide Owned, Intact, Lists, Awake;
    Pieces(s);
    var p := Reading(s.queue[0], size, []);
    assert s.queue == [s.queue[0]] + s.queue[1..];
    OwnedTake(s.maxMsgs, s.free, s.queue, s.place, t, p);
    IntactPlace(s.msgSize, s.data, s.sent, s.queue, s.place, t, p);
    IntactSubset(s.msgSize, s.data, s.sent, s.queue, s.queue[1..], s.place[t := p]);
    AwakeLeave(|s.queue|, s.receivers, s.place, s.error, s.timers, t, p, s.error[t], |s.queue| - 1);
    assert s.error[t := s.error[t]] == s.error;
  }

  lemma {:induction false} SuspendKeeps(s: State, t: Tid, size: nat, timeout: int)
    requires Inv(s) && t in s.place && t !in s.receivers && s.queue == []
    requires s.place[t].Idle? || s.place[t].Waiting?
    ensures Inv(Suspend(s, t, size, timeout))
  {
    hide Owned, Intact, Lists, NoDup, Enqueue;
    Pieces(s);
    var p := Waiting(size, timeout);
    OwnedSame(s.maxMsgs, s.free, s.queue, s.place, t, p);
    IntactPlace(s.msgSize, s.data, s.sent, s.queue, s.place, t, p);
    ListsSuspend(s.receivers, s.place, s.error, s.timers, t, p, s.flag, s.prio,
                 if timeout > 0 then s.timers + {t} else s.timers - {t});
  }

  /** A thread that holds no slot and is not queued may leave its loop. */
  lemma LeaveKeeps(s: State, t: Tid, e: Err)
    requires Inv(s) && t in s.place && t !in s.receivers
    requires s.place[t].Idle? || s.place[t].Waiting?
    requires s.queue == [] || s.error[t] != EOK
    ensures Inv(s.(place := s.place[t := Idle], error := s.error[t := e]))
  {
    hide Owned, Intact, Lists, Awake;
    Pieces(s);
    OwnedSame(s.maxMsgs, s.free, s.queue, s.place, t, Idle);
    IntactPlace(s.msgSize, s.data, s.sent, s.queue, s.place, t, Idle);
    AwakeLeave(|s.queue|, s.receivers, s.place, s.error, s.timers, t, Idle, e, |s.queue|);
  }

  lemma {:induction false} RecvLoopKeeps(s: State, t: Tid, size: nat, timeout: int)
    requires Inv(s) && t in s.place && t !in s.receivers
    requires s.place[t].Idle? || (s.place[t].Waiting? && s.error[t] == EOK)
    ensures Inv(RecvLoop(s, t, size, timeout).0)
  {
    hide Owned, Intact, Lists, Awake;
    if s.queue == [] {
      if timeout == 0 { LeaveKeeps(s, t, ETIMEOUT); } else { SuspendKeeps(s, t, size, timeout); }
    } else {
      TakeKeeps(s, t, size);
    }
  }

  lemma {:induction false} CopyOutKeeps(s: State, t: Tid)
    requires Inv(s) && Enabled(s, CopyOut(t))
    ensures Inv(CopyOutStep(s, t))
  {
    hide Owned, Intact, Lists, Awake;
    Pieces(s);
    var p := s.place[t];
    assert TransferOk(s.msgSize, s.data, s.sent, p);
    var p' := p.(buffer := p.buffer + [s.data[p.slot][|p.buffer|]]);
    assert s.data[p.slot][..|p.buffer| + 1] == p.buffer + [s.data[p.slot][|p.buffer|]];
    OwnedSame(s.maxMsgs, s.free, s.queue, s.place, t, p');
    IntactPlace(s.msgSize, s.data, s.sent, s.queue, s.place, t, p');
    BusyMoves(|s.queue|, s.receivers, s.place, s.error, s.timers, t, p');
  }

  lemma {:induction false} ReleaseKeeps(s: State, t: Tid)
    requires Inv(s) && Enabled(s, Release(t))
    ensures Inv(ReleaseStep(s, t).0)
  {
    hide Owned, Intact, Lists, Awake;
    Pieces(s);
    var x := s.place[t].slot;
    OwnedRelease(s.maxMsgs, s.free, s.queue, s.place, t, x);
    IntactPlace(s.msgSize, s.data, s.sent, s.queue, s.place, t, Idle);
    BusyMoves(|s.queue|, s.receivers, s.place, s.error, s.timers, t, Idle);
    assert forall y :: y in [x] + s.free ==> y == x || y in s.free;
  }

  /** A timeout, or a wake from outside. */
  lemma WakeKeeps(s: State, t: Tid, e: Err)
    requires Inv(s) && t in s.receivers
    ensures Inv(Wake(s.(error := s.error[t := e]), t))
  {
    hide Owned, Intact, Awake;
    AwakeRemove(|s.queue|, s.receivers, s.place, s.error, s.timers, t, e);
    RemoveMembers(s.receivers, t);
  }

  lemma {:induction false} ResetKeeps(s: State)
    requires Inv(s)
    ensures Inv(ResetStep(s))
  {
    hide Owned, Intact;
    OwnedReset(s.maxMsgs, s.free, s.queue, s.place);
    IntactSubset(s.msgSize, s.data, s.sent, s.queue, [], s.place);
    ReverseMembers(s.queue);
  }

  /** Every step of every interleaving keeps slot ownership, message contents and the wakeup guarantee. */
  lemma {:induction false} StepKeepsInv(s: State, a: Action)
    requires Inv(s) && Enabled(s, a)
    ensures Inv(Step(s, a).0)
  {
    assert WellFormed(s);
    hide Inv, RecvLoop, Wake, Remaining, WellFormed;
    match a
    case Reserve(t, msg, urgent) => ReserveKeeps(s, t, msg, urgent);
    case CopyIn(t) => CopyInKeeps(s, t);
    case Link(t) => LinkKeeps(s, t);
    case Recv(t, size, timeout) => RecvKeeps(s, t, size, timeout);
    case Continue(t, elapsed) => ContinueKeeps(s, t, elapsed);
    case CopyOut(t) => CopyOutKeeps(s, t);
    case Release(t) => ReleaseKeeps(s, t);
    case Timeout(t) => TimerMeansWaiting(s, t); WakeKeeps(s, t, ETIMEOUT);
    case Resume(t) => ResumeKeeps(s, t);
    case ChangePriority(t, p) => PriorityKeeps(s, t, p);
    case Reset => ResetKeeps(s);
  }

  /** The assertion in `rt_thread_timeout`: a running thread timer belongs to a suspended thread. */
  lemma TimerMeansWaiting(s: State, t: Tid)
    requires Inv(s) && t in s.timers
    ensures t in s.receivers && t in s.place && s.place[t].Waiting?
  {
  }

  lemma ResumeKeeps(s: State, t: Tid)
    requires Inv(s) && t in s.receivers
    ensures Inv(Wake(s, t))
  {
    assert t in s.error && s.error[t := s.error[t]] == s.error;
    WakeKeeps(s, t, s.error[t]);
  }

  lemma PriorityKeeps(s: State, t: Tid, p: nat)
    requires Inv(s) && t in s.place
    ensures Inv(s.(prio := s.prio[t := p]))
  {
  }

  lemma {:induction false} RecvKeeps(s: State, t: Tid, size: nat, timeout: int)
    requires Inv(s) && t in s.place && s.place[t].Idle?
    ensures Inv(RecvStep(s, t, size, timeout).0)
  {
    if !(s.queue == [] && timeout == 0) { RecvLoopKeeps(s, t, size, timeout); }
  }

  lemma {:induction false} ContinueKeeps(s: State, t: Tid, elapsed: nat)
    requires Inv(s) && Enabled(s, Continue(t, elapsed))
    ensures Inv(ContinueStep(s, t, elapsed).0)
  {
    if s.error[t] != EOK {
      assert s.error[t := s.error[t]] == s.error;
      LeaveKeeps(s, t, s.error[t]);
    } else {
      RecvLoopKeeps(s, t, s.place[t].size, Remaining(s.place[t].timeout, elapsed));
    }
  }

  // ---- Whole runs ----

  /** `rt_mq_init`: every slot free, every thread outside. */
  ghost predicate Initial(s: State) {
    && WellFormed(s) && s.queue == [] && s.receivers == [] && s.timers == {}
    && NoDup(s.free) && (forall x: nat :: x < s.maxMsgs ==> x in s.free)
    && forall t :: t in s.place ==> s.place[t].Idle?
  }

  lemma InitialInv(s: State)
    requires Initial(s)
    ensures Inv(s) && InFlight(s.place) == {}
  {
  }

  /** A run stops at a step that is not enabled. */
  function Run(s: State, acts: seq<Action>): (State, seq<Output>)
    decreases |acts|
  {
    if acts == [] || !WellFormed(s) || !Enabled(s, acts[0]) then (s, [])
    else
      var (s1, out) := Step(s, acts[0]);
      var (s2, outs) := Run(s1, acts[1..]);
      (s2, [out] + outs)
  }

  lemma {:induction false} RunKeepsInv(s: State, acts: seq<Action>)
    requires Inv(s)
    ensures Inv(Run(s, acts).0)
    decreases |acts|
  {
    hide Step;
    if acts != [] && Enabled(s, acts[0]) {
      StepKeepsInv(s, acts[0]);
      RunKeepsInv(Step(s, acts[0]).0, acts[1..]);
    }
  }

  /**
   From a new queue, after any run: no slot is shared or lost, every queued message is intact, and
   receivers only sleep beside messages for which another receiver has been woken.
   */
  lemma {:induction false} SafeInAnyRun(s: State, acts: seq<Action>)
    requires Initial(s)
    ensures var s' := Run(s, acts).0;
            && Owned(s'.maxMsgs, s'.free, s'.queue, s'.place)
            && (forall x :: x in s'.queue ==> Carries(s'.msgSize, s'.data, s'.sent, x))
            && (s'.receivers != [] ==> |s'.queue| <= |Woken(s'.receivers, s'.place, s'.error)|)
  {
    InitialInv(s);
    RunKeepsInv(s, acts);
  }

  // ---- Slots are conserved ----

  /** The threads in the middle of a transfer. */
  function InFlight(place: map<Tid, Place>): set<Tid> {
    set t | t in place && SlotOf(place[t]).Some?
  }

  lemma InFlightAfter(place: map<Tid, Place>, t: Tid, p: Place)
    requires t in place
    ensures |InFlight(place[t := p])|
         == |InFlight(place)| - (if SlotOf(place[t]).Some? then 1 else 0) + (if SlotOf(p).Some? then 1 else 0)
  {
    assert InFlight(place[t := p]) == InFlight(place) - {t} + (if SlotOf(p).Some? then {t} else {});
  }

  lemma {:induction false} ReverseLength(q: seq<Slot>)
    ensures |Reverse(q)| == |q|
  {
    if q != [] { ReverseLength(q[1..]); }
  }

  function Total(s: State): nat {
    |s.free| + |s.queue| + |InFlight(s.place)|
  }

  lemma RecvConserves(s: State, t: Tid, size: nat, timeout: int)
    requires WellFormed(s) && t in s.place && SlotOf(s.place[t]) == None
    ensures Total(RecvLoop(s, t, size, timeout).0) == Total(s)
  {
    hide InFlight, WellFormed, Enqueue;
    InFlightAfter(s.place, t, Idle);
    InFlightAfter(s.place, t, Waiting(size, timeout));
    if s.queue != [] { InFlightAfter(s.place, t, Reading(s.queue[0], size, [])); }
  }

  lemma StepConserves(s: State, a: Action)
    requires WellFormed(s) && Enabled(s, a)
    ensures Total(Step(s, a).0) == Total(s)
  {
    hide RecvLoop, WellFormed, Enqueue, Remove, Reverse, InFlight;
    var s' := Step(s, a).0;
    match a
    case Reserve(t, msg, urgent) => if s.free != [] { InFlightAfter(s.place, t, Filling(s.free[0], msg, 0, urgent)); }
    case CopyIn(t) => InFlightAfter(s.place, t, s'.place[t]);
    case Link(t) => InFlightAfter(s.place, t, Idle);
    case Recv(t, size, timeout) => RecvConserves(s, t, size, timeout);
    case Continue(t, elapsed) =>
      InFlightAfter(s.place, t, Idle);
      RecvConserves(s, t, s.place[t].size, Remaining(s.place[t].timeout, elapsed));
    case CopyOut(t) => InFlightAfter(s.place, t, s'.place[t]);
    case Release(t) => InFlightAfter(s.place, t, Idle);
    case Reset => ReverseLength(s.queue);
    case _ =>
  }

  /** Free slots, queued messages and transfers under way always add up to the pool. */
  lemma {:induction false} RunConserves(s: State, acts: seq<Action>)
    ensures Total(Run(s, acts).0) == Total(s)
    decreases |acts|
  {
    if acts != [] && WellFormed(s) && Enabled(s, acts[0]) {
      StepConserves(s, acts[0]);
      RunConserves(Step(s, acts[0]).0, acts[1..]);
    }
  }

  // ---- Delivery order and contents ----

  /** The queued messages, in the order in which they will be received. */
  ghost function Messages(s: State): seq<Bytes>
    requires WellFormed(s)
  {
    seq(|s.queue|, i requires 0 <= i < |s.queue| => MessageAt(s, i))
  }

  ghost function MessageAt(s: State, i: nat): Bytes
    requires WellFormed(s) && i < |s.queue|
  {
    assert s.queue[i] in s.queue;
    s.sent[s.queue[i]]
  }

  /** An ideal queue: link at the back, urgent messages at the front, take from the front. */
  function Replay(outs: seq<Output>, msgs: seq<Bytes>): Option<seq<Bytes>> {
    if outs == [] then Some(msgs) else
      match outs[0]
      case Linked(m, urgent) => Replay(outs[1..], if urgent then [m] + msgs else msgs + [m])
      case Taken(m) => if msgs == [] || msgs[0] != m then None else Replay(outs[1..], msgs[1..])
      case Cleared => Replay(outs[1..], [])
      case _ => Replay(outs[1..], msgs)
  }

  lemma LinkMessages(s: State, t: Tid)
    requires Inv(s) && Enabled(s, Link(t))
    ensures var (s', out) := LinkStep(s, t);
            WellFormed(s') && Messages(s') == (if out.urgent then [out.msg] + Messages(s) else Messages(s) + [out.msg])
  {
    hide Owned, Intact, Lists, Awake;
    Pieces(s);
    LinkKeeps(s, t);
    var p := s.place[t];
    var s' := LinkStep(s, t).0;
    assert Holds(s.place, t, p.slot);
    assert s'.queue == Linking(s.queue, p.slot, p.urgent) && s'.sent == s.sent[p.slot := p.msg];
    forall i: nat | i < |s.queue| ensures s.queue[i] in s.queue && s'.sent[s.queue[i]] == s.sent[s.queue[i]] {
      assert s.queue[i] in s.queue;
    }
  }

  /** What a step's output says about the messages before and after it. */
  ghost predicate Explains(out: Output, before: seq<Bytes>, after: seq<Bytes>) {
    match out
    case Linked(m, urgent) => after == (if urgent then [m] + before else before + [m])
    case Taken(m) => before == [m] + after
    case Cleared => after == []
    case _ => after == before
  }

  lemma RecvMessages(s: State, t: Tid, size: nat, timeout: int)
    requires WellFormed(s) && t in s.place && WellFormed(RecvLoop(s, t, size, timeout).0)
    ensures Explains(RecvLoop(s, t, size, timeout).1, Messages(s), Messages(RecvLoop(s, t, size, timeout).0))
  {
    var s' := RecvLoop(s, t, size, timeout).0;
    if s.queue != [] {
      assert Messages(s) == [s.sent[s.queue[0]]] + Messages(s');
    } else {
      assert Messages(s) == [] && Messages(s') == [];
    }
  }

  lemma SameMessages(s: State, s': State)
    requires WellFormed(s) && WellFormed(s') && s'.queue == s.queue && s'.sent == s.sent
    ensures Messages(s') == Messages(s)
  {
  }

  lemma StepMessages(s: State, a: Action)
    requires Inv(s) && Enabled(s, a)
    ensures Inv(Step(s, a).0)
    ensures Explains(Step(s, a).1, Messages(s), Messages(Step(s, a).0))
  {
    StepKeepsInv(s, a);
    hide Owned, Intact, Lists, Awake, Messages, RecvLoop, Explains, Enqueue, Remove, Known;
    var s' := Step(s, a).0;
    match a
    case Link(t) => LinkExplained(s, t);
    case Recv(t, size, timeout) =>
      if s.queue == [] && timeout == 0 {
        QuietExplained(s, s', Step(s, a).1);
      } else {
        RecvMessages(s, t, size, timeout);
      }
    case Continue(t, elapsed) =>
      if s.error[t] != EOK { QuietExplained(s, s', Step(s, a).1); }
      else { RecvMessages(s, t, s.place[t].size, Remaining(s.place[t].timeout, elapsed)); }
    case Reset => ResetExplained(s, s');
    case _ => QuietExplained(s, s', Step(s, a).1);
  }

  lemma LinkExplained(s: State, t: Tid)
    requires Inv(s) && Enabled(s, Link(t)) && WellFormed(LinkStep(s, t).0)
    ensures Explains(LinkStep(s, t).1, Messages(s), Messages(LinkStep(s, t).0))
  {
    LinkMessages(s, t);
  }

  lemma QuietExplained(s: State, s': State, out: Output)
    requires WellFormed(s) && WellFormed(s') && s'.queue == s.queue && s'.sent == s.sent
    requires !out.Linked? && !out.Taken? && !out.Cleared?
    ensures Explains(out, Messages(s), Messages(s'))
  {
    SameMessages(s, s');
  }

  lemma ResetExplained(s: State, s': State)
    requires WellFormed(s) && WellFormed(s') && s'.queue == []
    ensures Explains(Cleared, Messages(s), Messages(s'))
  {
  }

  /** Over any run the queue behaves as the ideal one: nothing lost, nothing twice, urgent messages first. */
  lemma {:induction false} DeliveryOrder(s: State, acts: seq<Action>)
    requires Inv(s)
    ensures var (s', outs) := Run(s, acts);
            WellFormed(s') && Replay(outs, Messages(s)) == Some(Messages(s'))
    decreases |acts|
  {
    hide Step, Owned, Intact, Lists, Awake, Messages;
    if acts != [] && Enabled(s, acts[0]) {
      StepMessages(s, acts[0]);
      var (s1, out) := Step(s, acts[0]);
      DeliveryOrder(s1, acts[1..]);
      var outs := Run(s1, acts[1..]).1;
      assert ([out] + outs)[1..] == outs;
      if out.Taken? { assert Messages(s)[1..] == Messages(s1); }
    }
  }

  /** From taking a message off the queue to giving its slot back, a receiver keeps the slot and the message in it. */
  lemma MessageStable(s: State, a: Action, t: Tid)
    requires Inv(s) && Enabled(s, a) && t in s.place && s.place[t].Reading? && a != Release(t)
    ensures var s' := Step(s, a).0;
            && t in s'.place && s'.place[t].Reading? && s'.place[t].slot == s.place[t].slot
            && s'.place[t].size == s.place[t].size
            && |s'.sent| == |s.sent| && s'.sent[s.place[t].slot] == s.sent[s.place[t].slot]
  {
    hide Owned, Intact, Lists, Awake;
    Pieces(s);
    assert Holds(s.place, t, s.place[t].slot);
    if a.Link? { assert Holds(s.place, a.t, s.place[a.t].slot); }
  }

  /** The buffer handed back holds the message that was sent, cut to the shorter of the two. */
  lemma DeliveredBytes(s: State, t: Tid)
    requires Inv(s) && Enabled(s, Release(t))
    ensures var b, m := Step(s, Release(t)).1.buffer, s.sent[s.place[t].slot];
            && |b| == Amount(s.msgSize, s.place[t].size)
            && b[..if |b| < |m| then |b| else |m|] == m[..if |b| < |m| then |b| else |m|]
  {
    Pieces(s);
    var p := s.place[t];
    assert TransferOk(s.msgSize, s.data, s.sent, p);
    var b, m, d := p.buffer, s.sent[p.slot], s.data[p.slot];
    var k := if |b| < |m| then |b| else |m|;
    assert d[..|b|][..k] == d[..k] && d[..|m|][..k] == d[..k];
  }
}
