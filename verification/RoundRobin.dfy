/**
 Time slices: the clock tick of clock.c takes the slice of the running thread, and `rt_thread_yield` turns the
 most urgent ready queue, whose head runs.
 */
module RoundRobin {
  import opened Common
  import opened Waiting

  /** The most urgent ready queue, the ticks left in each slice and the full slices. */
  datatype Slices = Slices(queue: seq<Tid>, left: map<Tid, nat>, full: map<Tid, nat>)

  const Wrap: int := 0x1_0000_0000

  /** Every thread of the queue has between one tick and its full slice left. */
  ghost predicate Inv(s: Slices) {
    NoDup(s.queue) && forall t :: t in s.queue ==> Sliced(s, t)
  }

  predicate Sliced(s: Slices, t: Tid) {
    t in s.left && t in s.full && 1 <= s.left[t] <= s.full[t] < Wrap
  }

  /** `rt_thread_yield` by the running thread: it goes to the end, unless it is alone in its queue. */
  function Yielded(q: seq<Tid>): seq<Tid> {
    if |q| >= 2 then q[1..] + [q[0]] else q
  }

  /** The slice part of `rt_tick_increase`. */
  function Tick(s: Slices): Slices
    requires s.queue != [] && s.queue[0] in s.left && s.queue[0] in s.full
  {
    var t := s.queue[0];
    var left := (s.left[t] - 1) % Wrap;
    if left == 0 then Slices(Yielded(s.queue), s.left[t := s.full[t]], s.full)
    else s.(left := s.left[t := left])
  }

  /** A thread becomes ready at this priority, with what is left of its slice. */
  function Arrive(s: Slices, t: Tid, left: nat, full: nat): Slices {
    Slices(s.queue + [t], s.left[t := left], s.full[t := full])
  }

  datatype Event = TickEvent | ArriveEvent(t: Tid, left: nat, full: nat)

  predicate Possible(s: Slices, e: Event) {
    match e
    case TickEvent => s.queue != [] && s.queue[0] in s.left && s.queue[0] in s.full
    case ArriveEvent(t, left, full) => t !in s.queue && 1 <= left <= full < Wrap
  }

  function Next(s: Slices, e: Event): Slices
    requires Possible(s, e)
  {
    match e
    case TickEvent => Tick(s)
    case ArriveEvent(t, left, full) => Arrive(s, t, left, full)
  }

  lemma NextKeepsInv(s: Slices, e: Event)
    requires Inv(s) && Possible(s, e)
    ensures Inv(Next(s, e))
  {
    var s' := Next(s, e);
    match e
    case TickEvent =>
      var t := s.queue[0];
      assert Sliced(s, t);
      assert s.queue == [t] + s.queue[1..];
      forall u | u in s'.queue ensures Sliced(s', u) {
        assert u in s.queue && Sliced(s, u);
      }
    case ArriveEvent(t, left, full) =>
      forall u | u in s'.queue ensures Sliced(s', u) {
        assert u == t || Sliced(s, u);
      }
  }

  /** The queue before any thread is ready; threads arrive with the slice that their initialisation gave them. */
  const Empty := Slices([], map[], map[])

  ghost function After(s: Slices, events: seq<Event>): Slices
    requires PossibleRun(s, events)
    decreases |events|
  {
    if events == [] then s else After(Next(s, events[0]), events[1..])
  }

  /** From the empty queue on, every run keeps the slices within bounds. */
  lemma {:induction false} RunKeepsInv(s: Slices, events: seq<Event>)
    requires PossibleRun(s, events) && (s == Empty || Inv(s))
    ensures Inv(After(s, events))
    decreases |events|
  {
    hide Next;
    if events != [] {
      NextKeepsInv(s, events[0]);
      RunKeepsInv(Next(s, events[0]), events[1..]);
    }
  }

  /** The ticks left to the threads in front of position `i`. */
  function Wait(q: seq<Tid>, left: map<Tid, nat>, i: nat): nat
    requires i <= |q|
  {
    if i == 0 then 0 else (if q[0] in left then left[q[0]] else 0) + Wait(q[1..], left, i - 1)
  }

  function Ticks(events: seq<Event>): nat {
    if events == [] then 0 else (if events[0].TickEvent? then 1 else 0) + Ticks(events[1..])
  }

  ghost predicate PossibleRun(s: Slices, events: seq<Event>)
    decreases |events|
  {
    events == [] || (Possible(s, events[0]) && PossibleRun(Next(s, events[0]), events[1..]))
  }

  /** At some point of the run `t` is at the head of the queue, so that it runs. */
  ghost predicate Runs(s: Slices, events: seq<Event>, t: Tid)
    requires PossibleRun(s, events)
    decreases |events|
  {
    (s.queue != [] && s.queue[0] == t) || (events != [] && Runs(Next(s, events[0]), events[1..], t))
  }

  lemma {:induction false} WaitFrame(q: seq<Tid>, left: map<Tid, nat>, left': map<Tid, nat>, i: nat)
    requires i <= |q| && forall k :: 0 <= k < i ==>
             (q[k] in left <==> q[k] in left') && (q[k] in left ==> left[q[k]] == left'[q[k]])
    ensures Wait(q, left, i) == Wait(q, left', i)
  {
    if i > 0 {
      WaitFrame(q[1..], left, left', i - 1);
    }
  }

  lemma {:induction false} WaitPrefix(q: seq<Tid>, r: seq<Tid>, left: map<Tid, nat>, i: nat)
    requires i <= |q|
    ensures i <= |q + r| && Wait(q + r, left, i) == Wait(q, left, i)
  {
    if i > 0 {
      TailOfJoin(q, r);
      WaitPrefix(q[1..], r, left, i - 1);
    }
  }

  /** A tick brings a waiting thread exactly one tick closer. */
  lemma TickCloser(s: Slices, i: nat)
    requires Inv(s) && 0 < i < |s.queue|
    ensures Possible(s, TickEvent)
    ensures var s' := Tick(s);
            exists k: nat :: k < |s'.queue| && s'.queue[k] == s.queue[i]
                   && Wait(s'.queue, s'.left, k) == Wait(s.queue, s.left, i) - 1
  {
    var t := s.queue[0];
    assert Sliced(s, t);
    var s' := Tick(s);
    assert forall k :: 0 < k < |s.queue| ==> s.queue[k] != t;
    WaitFrame(s.queue[1..], s.left, s'.left, i - 1);
    if s'.queue == s.queue {
      assert Wait(s'.queue, s'.left, i) == Wait(s.queue, s.left, i) - 1;
    } else {
      WaitPrefix(s.queue[1..], [t], s'.left, i - 1);
      assert s'.queue[i - 1] == s.queue[i];
      assert Wait(s'.queue, s'.left, i - 1) == Wait(s.queue, s.left, i) - 1;
    }
  }

  lemma {:induction false} WaitPositive(s: Slices, i: nat)
    requires Inv(s) && 0 < i <= |s.queue|
    ensures Wait(s.queue, s.left, i) >= 1
  {
    assert Sliced(s, s.queue[0]);
  }

  /**
   Bounded waiting: as long as nobody leaves the queue and nothing more urgent becomes ready, a waiting thread
   runs as soon as the ticks left to those in front of it have passed, and not before.
   */
  lemma {:induction false} RunsAfterWait(s: Slices, events: seq<Event>, i: nat)
    requires Inv(s) && i < |s.queue| && PossibleRun(s, events)
    ensures Runs(s, events, s.queue[i]) <==> Ticks(events) >= Wait(s.queue, s.left, i)
    decreases |events|
  {
    hide Wait, Tick;
    var t := s.queue[i];
    if i == 0 {
      NoWait(s.queue, s.left);
    } else {
      WaitPositive(s, i);
      if events != [] {
        var s' := Next(s, events[0]);
        NextKeepsInv(s, events[0]);
        match events[0]
        case TickEvent =>
          TickCloser(s, i);
          var k: nat :| k < |s'.queue| && s'.queue[k] == t
              && Wait(s'.queue, s'.left, k) == Wait(s.queue, s.left, i) - 1;
          RunsAfterWait(s', events[1..], k);
        case ArriveEvent(u, left, full) =>
          WaitFrame(s.queue, s.left, s'.left, i);
          WaitPrefix(s.queue, [u], s'.left, i);
          RunsAfterWait(s', events[1..], i);
      }
    }
  }

  lemma NoWait(q: seq<Tid>, left: map<Tid, nat>)
    ensures Wait(q, left, 0) == 0
  {
  }

  /** So the wait is at most the sum of the full slices in front. */
  lemma {:induction false} WaitBounded(s: Slices, i: nat)
    requires Inv(s) && i <= |s.queue|
    ensures Wait(s.queue, s.left, i) <= Wait(s.queue, s.full, i)
    decreases i
  {
    if i > 0 {
      var rest := s.(queue := s.queue[1..]);
      assert Sliced(s, s.queue[0]);
      forall t | t in rest.queue ensures Sliced(rest, t) {
        assert t in s.queue && Sliced(s, t);
      }
      WaitBounded(rest, i - 1);
    }
  }

  // ---- Turns ----

  /** The state after `n` ticks. */
  ghost function Ticked(s: Slices, n: nat): Slices
    requires Inv(s) && s.queue != []
    ensures Inv(Ticked(s, n)) && |Ticked(s, n).queue| == |s.queue|
    decreases n
  {
    if n == 0 then s
    else
      TickOk(s);
      Ticked(Tick(s), n - 1)
  }

  lemma TickOk(s: Slices)
    requires Inv(s) && s.queue != []
    ensures Possible(s, TickEvent) && Inv(Tick(s)) && |Tick(s).queue| == |s.queue|
  {
    assert Sliced(s, s.queue[0]);
    NextKeepsInv(s, TickEvent);
  }

  lemma {:induction false} TickedOn(s: Slices, a: nat, b: nat)
    requires Inv(s) && s.queue != []
    ensures Ticked(s, a + b) == Ticked(Ticked(s, a), b)
    decreases a
  {
    hide Tick, Inv;
    if a > 0 {
      TickOk(s);
      TickedOn(Tick(s), a - 1, b);
    }
  }

  /** The first thread runs for exactly the ticks it has left, and then waits behind all others with a full slice. */
  lemma {:induction false} WholeTurn(s: Slices, n: nat)
    requires Inv(s) && s.queue != [] && s.queue[0] in s.left && n <= s.left[s.queue[0]]
    ensures var t := s.queue[0];
            t in s.full
            && Ticked(s, n) == if n < s.left[t] then s.(left := s.left[t := s.left[t] - n])
                               else Slices(s.queue[1..] + [t], s.left[t := s.full[t]], s.full)
    decreases n
  {
    var t := s.queue[0];
    assert Sliced(s, t);
    TickOk(s);
    if n == 0 {
      assert s.left[t := s.left[t]] == s.left;
    } else {
      var s1 := Tick(s);
      if s.left[t] == 1 {
        assert s.queue[1..] + [t] == Yielded(s.queue);
      } else {
        WholeTurn(s1, n - 1);
      }
    }
  }

  /** How many of the next `n` ticks `t` runs. */
  ghost function Ran(s: Slices, n: nat, t: Tid): nat
    requires Inv(s) && s.queue != []
    decreases n
  {
    if n == 0 then 0
    else
      TickOk(s);
      (if s.queue[0] == t then 1 else 0) + Ran(Tick(s), n - 1, t)
  }

  lemma {:induction false} RanOn(s: Slices, a: nat, b: nat, t: Tid)
    requires Inv(s) && s.queue != []
    ensures Ran(s, a + b, t) == Ran(s, a, t) + Ran(Ticked(s, a), b, t)
    decreases a
  {
    hide Tick, Inv;
    if a > 0 {
      TickOk(s);
      RanOn(Tick(s), a - 1, b, t);
    }
  }

  lemma {:induction false} RanInTurn(s: Slices, n: nat, t: Tid)
    requires Inv(s) && s.queue != [] && s.queue[0] in s.left && n <= s.left[s.queue[0]]
    ensures Ran(s, n, t) == if s.queue[0] == t then n else 0
    decreases n
  {
    assert Sliced(s, s.queue[0]);
    TickOk(s);
    if n > 1 {
      RanInTurn(Tick(s), n - 1, t);
    }
  }

  /** The threads of the queue have full slices. */
  ghost predicate Fresh(s: Slices) {
    forall t :: t in s.queue ==> t in s.left && t in s.full && s.left[t] == s.full[t]
  }

  function Turned(q: seq<Tid>, i: nat): seq<Tid>
    requires i <= |q|
  {
    q[i..] + q[..i]
  }

  lemma TurnedOn(q: seq<Tid>, i: nat)
    requires i < |q|
    ensures Turned(q, i) != [] && Turned(q, i)[0] == q[i]
    ensures Turned(q, i)[1..] + [q[i]] == Turned(q, i + 1)
    ensures forall t :: t in Turned(q, i) <==> t in q
  {
    assert q == q[..i] + q[i..];
  }

  lemma {:induction false} WaitMore(q: seq<Tid>, left: map<Tid, nat>, i: nat)
    requires i < |q|
    ensures Wait(q, left, i + 1) == Wait(q, left, i) + if q[i] in left then left[q[i]] else 0
    decreases i
  {
    if i > 0 {
      WaitMore(q[1..], left, i - 1);
    }
  }

  /** After the slices of the first `i` threads it is the turn of the next, and each of them has run its whole slice. */
  lemma {:induction false} Turns(s: Slices, i: nat)
    requires Inv(s) && Fresh(s) && s.queue != [] && i <= |s.queue|
    ensures Ticked(s, Wait(s.queue, s.full, i)) == s.(queue := Turned(s.queue, i))
    ensures forall t :: t in s.queue ==>
              t in s.full && Ran(s, Wait(s.queue, s.full, i), t) == if t in s.queue[..i] then s.full[t] else 0
  {
    hide Inv, Ticked, Ran, Wait;
    if i == 0 {
      NoTicks(s);
    } else {
      var k, q := i - 1, s.queue;
      Turns(s, k);
      var n, u := Wait(q, s.full, k), q[k];
      var s1 := s.(queue := Turned(q, k));
      assert Inv(s1) && s1 == Ticked(s, n);
      TurnedOn(q, k);
      WaitMore(q, s.full, k);
      assert u in q;
      HeadTurn(s1);
      TickedOn(s, n, s.full[u]);
      forall t | t in q
        ensures t in s.full && Ran(s, n + s.full[u], t) == if t in q[..i] then s.full[t] else 0
      {
        RanOn(s, n, s.full[u], t);
        HeadRan(s1, t);
        assert t in q[..i] <==> t in q[..k] || t == u by { assert q[..i] == q[..k] + [u]; }
        if t == u { OnceOnly(s, k); }
      }
    }
  }

  lemma NoTicks(s: Slices)
    requires Inv(s) && s.queue != []
    ensures Ticked(s, 0) == s && Wait(s.queue, s.full, 0) == 0 && Turned(s.queue, 0) == s.queue
    ensures forall t :: Ran(s, 0, t) == 0
  {
  }

  lemma OnceOnly(s: Slices, k: nat)
    requires Inv(s) && k < |s.queue|
    ensures s.queue[k] !in s.queue[..k]
  {
  }

  /** A full turn of the first thread changes nothing but its place. */
  lemma HeadTurn(s: Slices)
    requires Inv(s) && Fresh(s) && s.queue != []
    ensures var t := s.queue[0]; t in s.full && Ticked(s, s.full[t]) == s.(queue := s.queue[1..] + [t])
  {
    var t := s.queue[0];
    assert t in s.queue;
    WholeTurn(s, s.full[t]);
    assert s.left[t := s.full[t]] == s.left;
  }

  lemma HeadRan(s: Slices, t: Tid)
    requires Inv(s) && Fresh(s) && s.queue != []
    ensures var u := s.queue[0]; u in s.full && Ran(s, s.full[u], t) == if u == t then s.full[u] else 0
  {
    assert s.queue[0] in s.queue;
    RanInTurn(s, s.full[s.queue[0]], t);
  }

  /** A whole round gives every thread of the queue exactly its slice, and brings back the state it started from. */
  lemma Round(s: Slices)
    requires Inv(s) && Fresh(s) && s.queue != []
    ensures var n := Wait(s.queue, s.full, |s.queue|);
            && Ticked(s, n) == s
            && forall t :: t in s.queue ==> t in s.full && Ran(s, n, t) == s.full[t]
  {
    hide Inv, Ticked, Ran, Wait, Fresh;
    Turns(s, |s.queue|);
    assert Turned(s.queue, |s.queue|) == s.queue && s.queue[..|s.queue|] == s.queue;
  }

  /** A thread that becomes ready waits behind all others, with what it has left of its slice. */
  lemma Arrival(s: Slices, t: Tid, left: nat, full: nat)
    requires Inv(s) && Possible(s, ArriveEvent(t, left, full))
    ensures var s' := Next(s, ArriveEvent(t, left, full)); var n := |s.queue|;
            && Inv(s') && |s'.queue| == n + 1 && s'.queue[n] == t && s'.queue[..n] == s.queue
            && t in s'.left && s'.left[t] == left && t in s'.full && s'.full[t] == full
            && Wait(s'.queue, s'.left, n) == Wait(s.queue, s.left, n)
            && forall u :: u in s.queue ==> u in s'.left && u in s'.full
                                            && s'.left[u] == s.left[u] && s'.full[u] == s.full[u]
  {
    var s' := Next(s, ArriveEvent(t, left, full));
    NextKeepsInv(s, ArriveEvent(t, left, full));
    forall u | u in s.queue ensures Sliced(s, u) {
    }
    WaitFrame(s.queue, s.left, s'.left, |s.queue|);
    WaitPrefix(s.queue, [t], s'.left, |s.queue|);
  }

  class Clock {
    var tick: int
    var queue: seq<Tid>
    var left: map<Tid, nat>
    var full: map<Tid, nat>

    ghost function Abs(): Slices
      reads this
    {
      Slices(queue, left, full)
    }

    /** `rt_thread_yield`. */
    method Yield()
      requires queue != []
      modifies this`queue
      ensures |queue| == |old(queue)| && queue[|queue| - 1] == old(queue)[0]
      ensures forall k :: 0 <= k < |queue| - 1 ==> queue[k] == old(queue)[k + 1]
    {
      var thread := queue[0];
      if |queue| >= 2 {
        queue := queue[1..];
        queue := queue + [thread];
      }
    }

    /** `rt_tick_increase` up to the timers. */
    method TickIncrease()
      requires Possible(Abs(), TickEvent)
      modifies this
      ensures tick == (old(tick) + 1) % Wrap && Abs() == Tick(old(Abs()))
    {
      tick := (tick + 1) % Wrap;
      var thread := queue[0];
      left := left[thread := (left[thread] - 1) % Wrap];
      if left[thread] == 0 {
        left := left[thread := full[thread]];
        ghost var before := queue;
        Yield();
        assert queue == Yielded(before);
      }
    }
  }
}
