/**
 When the expiry loop of `rt_timer_check` ends, for callbacks that start and stop any timers, themselves and with
 zero ticks included. What one pass does to the expired timers depends on them and on the activated flags alone, so
 the loop is a queue of timers: the head leaves, its callback takes timers out or puts them behind the others.
 */
module TimerEnds {
  import opened Common
  import opened Timer
  import opened TimerExpiry

  // ---- The loop as a queue of expired timers ----

  /** The expired timers, in list order, and the timers that are activated. */
  datatype Queue = Queue(due: seq<Id>, active: set<Id>)

  function View(s: State, now: Tick): Queue {
    Queue(Due(s.arms, s.linked, now), s.activated)
  }

  /** A start takes the timer out, and puts it behind all the others if it is for now; a stop may be refused. */
  function Effect(q: Queue, op: Op, cfg: Config): Queue {
    match op
    case StartOp(t) => Queue(Without(q.due, {t}) + (if cfg.delay(t) == 0 then [t] else []), q.active + {t})
    case StopOp(t) => if t in q.active then Queue(Without(q.due, {t}), q.active - {t}) else q
  }

  function Effects(q: Queue, ops: seq<Op>, cfg: Config): Queue
    decreases |ops|
  {
    if ops == [] then q else Effects(Effect(q, ops[0], cfg), ops[1..], cfg)
  }

  /** One pass. */
  function Pass(q: Queue, cfg: Config): Queue
    requires q.due != []
  {
    var t := q.due[0];
    var q2 := Effects(Queue(q.due[1..], q.active), cfg.callback(t), cfg);
    var q3 := q2.(active := q2.active - {t});
    if cfg.periodic(t) && t in q2.active then Effect(q3, StartOp(t), cfg) else q3
  }

  /** `n` passes, fewer if nothing is expired before. */
  function Passes(q: Queue, n: nat, cfg: Config): Queue
    decreases n
  {
    if n == 0 || q.due == [] then q else Passes(Pass(q, cfg), n - 1, cfg)
  }

  /** The order of the list, whatever the flags of its timers. */
  ghost predicate Orderly(base: Tick, s: State) {
    && Ordered(base, s.arms, s.linked)
    && Windowed(base, s.arms, s.linked)
    && forall t :: t in s.linked ==> At(s.arms, t).stamp < s.starts
  }

  /** All that is started stays in the window. */
  ghost predicate Reaches(base: Tick, now: Tick, cfg: Config) {
    && InWindow(base, now)
    && (forall t :: cfg.periodic(t) ==> Diff(now, base) + cfg.delay(t) < Half)
    && (forall t, u :: StartOp(u) in cfg.callback(t) ==> Diff(now, base) + cfg.delay(u) < Half)
  }

  function Flagged(s: State): State {
    s.(activated := s.activated + set t | t in s.linked)
  }

  lemma FlaggedInv(base: Tick, s: State)
    ensures Orderly(base, s) <==> Inv(base, Flagged(s))
  {
    hide Ordered, Windowed;
  }

  lemma InvOrderly(base: Tick, s: State)
    requires Inv(base, s)
    ensures Orderly(base, s)
  {
    hide Ordered, Windowed;
  }

  lemma StartView(base: Tick, s: State, t: Id, now: Tick, cfg: Config)
    requires Orderly(base, s) && InWindow(base, now) && Diff(now, base) + cfg.delay(t) < Half
    ensures Orderly(base, Start(s, t, now, cfg.delay(t)))
    ensures View(Start(s, t, now, cfg.delay(t)), now) == Effect(View(s, now), StartOp(t), cfg)
  {
    hide Ordered, Windowed, Due, Position, Later, Without, Diff;
    var delay := cfg.delay(t);
    FlaggedInv(base, s);
    StartKeepsInv(base, Flagged(s), t, now, delay);
    StartFlagged(s, t, now, delay);
    InvOrderly(base, Start(Flagged(s), t, now, delay));
    StartDue(s, t, now, delay);
    if delay == 0 {
      var rest := Without(s.linked, {t});
      WithoutKeeps(base, s, {t});
      ZeroGoesLast(base, s.arms, rest, now);
      DueWithout(s.arms, s.linked, {t}, now);
      InsertedLast(Due(s.arms, rest, now), t);
    } else {
      assert Without(Due(s.arms, s.linked, now), {t}) + [] == Without(Due(s.arms, s.linked, now), {t});
    }
  }

  lemma StartFlagged(s: State, t: Id, now: Tick, delay: Delay)
    ensures var s1, s2 := Start(s, t, now, delay), Start(Flagged(s), t, now, delay);
            s1.linked == s2.linked && s1.arms == s2.arms && s1.starts == s2.starts
  {
  }

  lemma InsertedLast(q: seq<Id>, t: Id)
    ensures InsertAt(q, |q|, t) == q + [t]
  {
  }

  lemma WithoutKeeps(base: Tick, s: State, gone: set<Id>)
    requires Orderly(base, s)
    ensures Orderly(base, s.(linked := Without(s.linked, gone)))
  {
    hide Ordered, Key;
    WithoutOrdered(base, s.arms, s.linked, gone);
  }

  lemma ApplyView(base: Tick, s: State, op: Op, now: Tick, cfg: Config)
    requires Orderly(base, s) && InWindow(base, now) && (op.StartOp? ==> Diff(now, base) + cfg.delay(op.t) < Half)
    ensures Orderly(base, Apply(s, op, now, cfg))
    ensures View(Apply(s, op, now, cfg), now) == Effect(View(s, now), op, cfg)
  {
    hide Orderly, Due, Start, Without, Diff;
    match op
    case StartOp(t) => StartView(base, s, t, now, cfg);
    case StopOp(t) =>
      WithoutKeeps(base, s, {t});
      FlagsKeep(base, s.(linked := Without(s.linked, {t})), s.activated - {t});
      DueWithout(s.arms, s.linked, {t}, now);
  }

  lemma FlagsKeep(base: Tick, s: State, activated: set<Id>)
    requires Orderly(base, s)
    ensures Orderly(base, s.(activated := activated))
  {
    hide Ordered, Windowed;
  }

  lemma {:induction false} RunView(base: Tick, s: State, ops: seq<Op>, now: Tick, cfg: Config)
    requires Orderly(base, s) && InWindow(base, now)
    requires forall u :: StartOp(u) in ops ==> Diff(now, base) + cfg.delay(u) < Half
    ensures Orderly(base, Run(s, ops, now, cfg))
    ensures View(Run(s, ops, now, cfg), now) == Effects(View(s, now), ops, cfg)
    decreases |ops|
  {
    hide Orderly, View, Apply, Effect, Diff;
    if ops != [] {
      var op := ops[0];
      assert op in ops;
      if op.StartOp? { assert StartOp(op.t) in ops; }
      ApplyView(base, s, op, now, cfg);
      RunView(base, Apply(s, op, now, cfg), ops[1..], now, cfg);
    }
  }

  /** For every callback, one pass of the loop is one pass on the queue. */
  lemma FireView(base: Tick, s: State, now: Tick, cfg: Config)
    requires Orderly(base, s) && Reaches(base, now, cfg) && HeadDue(s, now)
    ensures Orderly(base, Fire(s, now, cfg))
    ensures View(s, now).due != [] && View(Fire(s, now, cfg), now) == Pass(View(s, now), cfg)
  {
    hide Orderly, Due, Start, Without, Diff, Run, Effects, Effect, Expired, Later;
    var t := s.linked[0];
    FlaggedInv(base, s);
    HeadUnlinked(base, Flagged(s), now);
    var s1 := s.(linked := Without(s.linked, {t}));
    WithoutKeeps(base, s, {t});
    RunView(base, s1, cfg.callback(t), now, cfg);
    var s2 := Run(s1, cfg.callback(t), now, cfg);
    var s3 := s2.(activated := s2.activated - {t});
    FlagsKeep(base, s2, s2.activated - {t});
    if cfg.periodic(t) && t in s2.activated {
      StartView(base, s3, t, now, cfg);
    }
  }

  /** `n` passes of the loop, fewer if it ends before. */
  function Loop(s: State, n: nat, now: Tick, cfg: Config): State
    decreases n
  {
    if n == 0 || !HeadDue(s, now) then s else Loop(Fire(s, now, cfg), n - 1, now, cfg)
  }

  ghost predicate Ends(s: State, now: Tick, cfg: Config) {
    exists n: nat :: !HeadDue(Loop(s, n, now, cfg), now)
  }

  lemma {:induction false} LoopView(base: Tick, s: State, n: nat, now: Tick, cfg: Config)
    requires Orderly(base, s) && Reaches(base, now, cfg)
    ensures var s' := Loop(s, n, now, cfg);
            && Orderly(base, s') && View(s', now) == Passes(View(s, now), n, cfg)
            && (HeadDue(s', now) <==> View(s', now).due != [])
    decreases n
  {
    hide Orderly, View, Fire, Reaches, Pass, Expired;
    HeadView(base, s, now, cfg);
    if HeadDue(s, now) && n > 0 {
      FireView(base, s, now, cfg);
      LoopView(base, Fire(s, now, cfg), n - 1, now, cfg);
    }
  }

  lemma HeadView(base: Tick, s: State, now: Tick, cfg: Config)
    requires Orderly(base, s) && Reaches(base, now, cfg)
    ensures HeadDue(s, now) <==> View(s, now).due != []
  {
    hide Orderly, Ordered, Windowed, Expired, At;
    FlaggedInv(base, s);
    if HeadDue(s, now) {
      HeadUnlinked(base, Flagged(s), now);
    } else {
      HeadNotDue(base, Flagged(s), now);
    }
  }

  /** The loop ends exactly if the queue becomes empty. */
  lemma EndsView(base: Tick, s: State, now: Tick, cfg: Config)
    requires Orderly(base, s) && Reaches(base, now, cfg)
    ensures Ends(s, now, cfg) <==> exists n: nat :: Passes(View(s, now), n, cfg).due == []
  {
    hide Orderly, View, Reaches, HeadDue, Loop, Passes;
    if n: nat :| !HeadDue(Loop(s, n, now, cfg), now) {
      LoopView(base, s, n, now, cfg);
      assert Passes(View(s, now), n, cfg).due == [];
    }
    if n: nat :| Passes(View(s, now), n, cfg).due == [] {
      LoopView(base, s, n, now, cfg);
      assert !HeadDue(Loop(s, n, now, cfg), now);
    }
  }

  // ---- Any callbacks: the loop ends unless it repeats itself ----

  /** The timers of a system: callbacks of theirs start and stop none but them. */
  ghost predicate System(timers: set<Id>, cfg: Config) {
    forall t, op :: t in timers && op in cfg.callback(t) ==> op.t in timers
  }

  ghost predicate Within(q: Queue, timers: set<Id>) {
    (forall t :: t in q.due ==> t in timers) && q.active <= timers
  }

  lemma EffectWithin(q: Queue, op: Op, timers: set<Id>, cfg: Config)
    requires Within(q, timers) && op.t in timers
    ensures Within(Effect(q, op, cfg), timers)
  {
  }

  lemma {:induction false} EffectsWithin(q: Queue, ops: seq<Op>, timers: set<Id>, cfg: Config)
    requires Within(q, timers) && forall op :: op in ops ==> op.t in timers
    ensures Within(Effects(q, ops, cfg), timers)
    decreases |ops|
  {
    hide Within, Effect;
    if ops != [] {
      assert ops[0] in ops;
      EffectWithin(q, ops[0], timers, cfg);
      EffectsWithin(Effect(q, ops[0], cfg), ops[1..], timers, cfg);
    }
  }

  lemma PassWithin(q: Queue, timers: set<Id>, cfg: Config)
    requires Within(q, timers) && System(timers, cfg) && q.due != []
    ensures Within(Pass(q, cfg), timers)
  {
    hide Effects, Effect;
    var t := q.due[0];
    assert t in timers;
    var q1 := Queue(q.due[1..], q.active);
    EffectsWithin(q1, cfg.callback(t), timers, cfg);
    var q2 := Effects(q1, cfg.callback(t), cfg);
    EffectWithin(q2.(active := q2.active - {t}), StartOp(t), timers, cfg);
  }

  lemma {:induction false} PassesWithin(q: Queue, n: nat, timers: set<Id>, cfg: Config)
    requires Within(q, timers) && System(timers, cfg)
    ensures Within(Passes(q, n, cfg), timers)
    decreases n
  {
    hide Within, System, Pass;
    if n > 0 && q.due != [] {
      PassWithin(q, timers, cfg);
      PassesWithin(Pass(q, cfg), n - 1, timers, cfg);
    }
  }

  lemma {:induction false} PassesPlus(q: Queue, n: nat, m: nat, cfg: Config)
    ensures Passes(q, n + m, cfg) == Passes(Passes(q, n, cfg), m, cfg)
    decreases n
  {
    hide Pass;
    if n > 0 && q.due != [] {
      PassesPlus(Pass(q, cfg), n - 1, m, cfg);
    }
  }

  lemma EmptyStays(q: Queue, n: nat, m: nat, cfg: Config)
    requires n <= m && Passes(q, n, cfg).due == []
    ensures Passes(q, m, cfg).due == []
  {
    PassesPlus(q, n, m - n, cfg);
  }

  /** Within `bound` passes the queue comes back to what it was, with timers still expired. */
  ghost predicate Repeats(q: Queue, bound: nat, cfg: Config) {
    exists i: nat, j: nat :: i < j <= bound && Passes(q, i, cfg) == Passes(q, j, cfg) && Passes(q, i, cfg).due != []
  }

  lemma {:induction false} RoundAndRound(q: Queue, d: nat, n: nat, cfg: Config)
    requires d > 0 && Passes(q, d, cfg) == q && q.due != []
    ensures Passes(q, n, cfg).due != []
    decreases n
  {
    hide Pass, Passes;
    if n < d {
      if Passes(q, n, cfg).due == [] { EmptyStays(q, n, d, cfg); }
    } else {
      PassesPlus(q, d, n - d, cfg);
      RoundAndRound(q, d, n - d, cfg);
    }
  }

  lemma NeverEmpty(q: Queue, bound: nat, n: nat, cfg: Config)
    requires Repeats(q, bound, cfg)
    ensures Passes(q, n, cfg).due != []
  {
    hide Passes;
    var i: nat, j: nat :| i < j <= bound && Passes(q, i, cfg) == Passes(q, j, cfg) && Passes(q, i, cfg).due != [];
    if n <= i {
      if Passes(q, n, cfg).due == [] { EmptyStays(q, n, i, cfg); }
    } else {
      PassesPlus(q, i, j - i, cfg);
      PassesPlus(q, i, n - i, cfg);
      RoundAndRound(Passes(q, i, cfg), j - i, n - i, cfg);
    }
  }

  /** All lists of at most `n` of these timers. */
  ghost function Lists(timers: set<Id>, n: nat): set<seq<Id>> {
    if n == 0 then {[]} else {[]} + set t, q | t in timers && q in Lists(timers, n - 1) :: [t] + q
  }

  lemma {:induction false} InLists(q: seq<Id>, timers: set<Id>, n: nat)
    requires |q| <= n && forall t :: t in q ==> t in timers
    ensures q in Lists(timers, n)
    decreases n
  {
    if q != [] {
      InLists(q[1..], timers, n - 1);
      assert q == [q[0]] + q[1..] && q[0] in q;
    }
  }

  lemma {:induction false} NoLonger(q: seq<Id>, timers: set<Id>)
    requires NoDup(q) && forall t :: t in q ==> t in timers
    ensures |q| <= |timers|
  {
    if q != [] {
      assert q[0] in q && forall t :: t in q[1..] ==> t in q && t != q[0];
      NoLonger(q[1..], timers - {q[0]});
    }
  }

  /** All queues of these timers. */
  ghost function Space(timers: set<Id>): set<Queue> {
    set q, a | q in Lists(timers, |timers|) && a in Subsets(timers) :: Queue(q, a)
  }

  ghost function Subsets(timers: set<Id>): set<set<Id>> {
    set a: set<Id> | a <= timers
  }

  lemma InSpace(q: Queue, timers: set<Id>)
    requires Within(q, timers) && NoDup(q.due)
    ensures q in Space(timers)
  {
    NoLonger(q.due, timers);
    InLists(q.due, timers, |timers|);
    assert q.active in Subsets(timers);
    assert q == Queue(q.due, q.active);
    hide Lists, Subsets, NoDup;
  }

  ghost function Visited(q: Queue, n: nat, cfg: Config): set<Queue> {
    if n == 0 then {Passes(q, 0, cfg)} else Visited(q, n - 1, cfg) + {Passes(q, n, cfg)}
  }

  lemma {:induction false} VisitedAt(q: Queue, n: nat, cfg: Config, x: Queue) returns (k: nat)
    requires x in Visited(q, n, cfg)
    ensures k <= n && x == Passes(q, k, cfg)
  {
    if n == 0 || x == Passes(q, n, cfg) {
      k := n;
    } else {
      k := VisitedAt(q, n - 1, cfg, x);
    }
  }

  lemma {:induction false} VisitedSize(q: Queue, n: nat, cfg: Config)
    requires forall i: nat, j: nat :: i < j <= n ==> Passes(q, i, cfg) != Passes(q, j, cfg)
    ensures |Visited(q, n, cfg)| == n + 1
  {
    hide Passes;
    if n > 0 {
      VisitedSize(q, n - 1, cfg);
      if Passes(q, n, cfg) in Visited(q, n - 1, cfg) {
        var k := VisitedAt(q, n - 1, cfg, Passes(q, n, cfg));
      }
    }
  }

  /** Without end, the passes run out of queues that are new. */
  lemma {:induction false} RunsOut(q: Queue, space: set<Queue>, cfg: Config)
    requires forall n: nat :: Passes(q, n, cfg) in space && Passes(q, n, cfg).due != []
    ensures Repeats(q, |space|, cfg)
  {
    hide Passes;
    if !Repeats(q, |space|, cfg) {
      VisitedSize(q, |space|, cfg);
      forall x | x in Visited(q, |space|, cfg) ensures x in space {
        var k := VisitedAt(q, |space|, cfg, x);
      }
      SubsetSize(Visited(q, |space|, cfg), space);
    }
  }

  lemma {:induction false} ViewInSpace(base: Tick, s: State, n: nat, now: Tick, cfg: Config, timers: set<Id>)
    requires Orderly(base, s) && Reaches(base, now, cfg) && System(timers, cfg) && Within(View(s, now), timers)
    ensures Passes(View(s, now), n, cfg) in Space(timers)
  {
    hide Reaches, System, Within, Passes, Space, Loop, Ordered, Windowed;
    LoopView(base, s, n, now, cfg);
    var s' := Loop(s, n, now, cfg);
    ViewDistinct(base, s', now);
    PassesWithin(View(s, now), n, timers, cfg);
    InSpace(View(s', now), timers);
  }

  /**
   For callbacks of every kind: the loop ends if and only if no pass, among the first as many as there are queues of
   these timers, comes back to expired timers and flags that were there before.
   */
  lemma {:induction false} EndsUnlessRepeating(base: Tick, s: State, now: Tick, cfg: Config, timers: set<Id>)
    requires Orderly(base, s) && Reaches(base, now, cfg) && System(timers, cfg) && Within(View(s, now), timers)
    ensures Ends(s, now, cfg) <==> !Repeats(View(s, now), |Space(timers)|, cfg)
  {
    hide Orderly, View, Reaches, System, Within, Pass, Space, Repeats, Ends;
    var q, bound := View(s, now), |Space(timers)|;
    EndsView(base, s, now, cfg);
    if n: nat :| Passes(q, n, cfg).due == [] {
      assert Passes(q, n, cfg).due == [];
      if Repeats(q, bound, cfg) { NeverEmpty(q, bound, n, cfg); }
    } else {
      forall n: nat ensures Passes(q, n, cfg) in Space(timers) {
        ViewInSpace(base, s, n, now, cfg, timers);
      }
      RunsOut(q, Space(timers), cfg);
    }
  }

  /** Two one-shot timers that start each other for now keep the loop running for ever. */
  lemma RingOfTwo(base: Tick, s: State, now: Tick, cfg: Config, t: Id, u: Id)
    requires Orderly(base, s) && Reaches(base, now, cfg) && View(s, now) == Queue([t], {t}) && t != u
    requires cfg.callback(t) == [StartOp(u)] && cfg.callback(u) == [StartOp(t)]
    requires cfg.delay(t) == 0 && cfg.delay(u) == 0 && !cfg.periodic(t) && !cfg.periodic(u)
    ensures !Ends(s, now, cfg)
  {
    hide Orderly, Reaches, View, Ends;
    var q, q1 := Queue([t], {t}), Queue([u], {u});
    EndsView(base, s, now, cfg);
    assert Pass(q, cfg) == q1 by { OneStart(Queue([], {t}), u, cfg); }
    assert Pass(q1, cfg) == q by { OneStart(Queue([], {u}), t, cfg); }
    assert Passes(q, 2, cfg) == Passes(q1, 1, cfg) == Passes(q, 0, cfg);
    forall n: nat ensures Passes(q, n, cfg).due != [] { RoundAndRound(q, 2, n, cfg); }
  }

  lemma OneStart(q: Queue, u: Id, cfg: Config)
    requires cfg.delay(u) == 0 && q.due == []
    ensures Effects(q, [StartOp(u)], cfg) == Queue([u], q.active + {u})
  {
    assert [StartOp(u)][1..] == [];
    assert Effects(Effect(q, StartOp(u), cfg), [], cfg) == Effect(q, StartOp(u), cfg);
  }

  // ---- Callbacks that start no zero-tick timers ----

  ghost predicate Patient(cfg: Config) {
    forall t, u :: StartOp(u) in cfg.callback(t) ==> cfg.delay(u) >= 1
  }

  /** Every expired timer can be stopped. */
  ghost predicate Stoppable(q: Queue) {
    forall t :: t in q.due ==> t in q.active
  }

  /** The same on the expired timers alone. */
  function Turns(due: seq<Id>, n: nat, cfg: Config): seq<Id>
    decreases n
  {
    if n == 0 || due == [] then due else Turns(Turn(due, cfg), n - 1, cfg)
  }

  lemma {:induction false} PatientEffects(q: Queue, ops: seq<Op>, cfg: Config)
    requires Stoppable(q) && forall u :: StartOp(u) in ops ==> cfg.delay(u) >= 1
    ensures var q' := Effects(q, ops, cfg); Stoppable(q') && q'.due == Without(q.due, Touched(ops))
    decreases |ops|
  {
    hide Without;
    if ops == [] {
      WithoutNone(q.due, {});
    } else {
      assert ops[0] in ops;
      if ops[0].StartOp? { assert StartOp(ops[0].t) in ops; }
      var rest := Without(q.due, {ops[0].t});
      assert rest + [] == rest;
      if ops[0].t !in q.active { WithoutNone(q.due, {ops[0].t}); }
      PatientEffects(Effect(q, ops[0], cfg), ops[1..], cfg);
      WithoutTwice(q.due, {ops[0].t}, Touched(ops[1..]));
    }
  }

  /** A timer that these calls do not start stays activated exactly if they do not touch it. */
  lemma {:induction false} FlagAfter(q: Queue, ops: seq<Op>, cfg: Config, t: Id)
    requires StartOp(t) !in ops
    ensures t in Effects(q, ops, cfg).active <==> t in q.active && t !in Touched(ops)
    decreases |ops|
  {
    hide Without;
    if ops != [] {
      assert ops[0] in ops;
      FlagAfter(Effect(q, ops[0], cfg), ops[1..], cfg, t);
    }
  }

  lemma PatientPass(q: Queue, cfg: Config)
    requires Patient(cfg) && Stoppable(q) && NoDup(q.due) && q.due != []
    ensures Pass(q, cfg).due == Turn(q.due, cfg) && Stoppable(Pass(q, cfg))
  {
    hide Effects, Without, Touched;
    var t := q.due[0];
    var q1 := Queue(q.due[1..], q.active);
    assert t in q.due && forall u :: u in q1.due ==> u in q.due && u != t;
    PatientEffects(q1, cfg.callback(t), cfg);
    if cfg.delay(t) == 0 { FlagAfter(q1, cfg.callback(t), cfg, t); }
    var rest := Without(q1.due, Touched(cfg.callback(t)));
    WithoutNone(rest, {t});
    assert rest + [] == rest;
  }

  lemma {:induction false} LoopTurns(base: Tick, s: State, n: nat, now: Tick, cfg: Config)
    requires Orderly(base, s) && Reaches(base, now, cfg) && Patient(cfg) && Stoppable(View(s, now))
    ensures Passes(View(s, now), n, cfg).due == Turns(View(s, now).due, n, cfg)
    decreases n
  {
    hide Orderly, Reaches, Patient, Stoppable, Fire, Pass, Turn, Expired, Due, NoDup;
    if n > 0 && View(s, now).due != [] {
      HeadView(base, s, now, cfg);
      ViewDistinct(base, s, now);
      PatientPass(View(s, now), cfg);
      FireView(base, s, now, cfg);
      LoopTurns(base, Fire(s, now, cfg), n - 1, now, cfg);
    }
  }

  lemma ViewDistinct(base: Tick, s: State, now: Tick)
    requires Orderly(base, s)
    ensures NoDup(View(s, now).due)
  {
    hide Ordered, Windowed;
    DueDistinct(base, s.arms, s.linked, now);
  }

  /** The `i`-th timer fired spins, and no callback after its own touches it. */
  predicate Lasts(fired: seq<Id>, i: nat, cfg: Config)
    requires i < |fired|
  {
    Spins(cfg, fired[i]) && forall j :: i < j < |fired| ==> fired[i] !in Touched(cfg.callback(fired[j]))
  }

  ghost predicate IsLeft(fired: seq<Id>, cfg: Config, x: Id) {
    exists i :: 0 <= i < |fired| && fired[i] == x && Lasts(fired, i, cfg)
  }

  /** One round: `a` is still to fire, `b` has fired in this round and is expired again. */
  ghost function Round(a: seq<Id>, b: seq<Id>, cfg: Config): seq<Id>
    decreases |a|
  {
    if a == [] then b
    else
      var gone := Touched(cfg.callback(a[0]));
      Round(Without(a[1..], gone), Without(b, gone) + (if Spins(cfg, a[0]) then [a[0]] else []), cfg)
  }

  lemma {:induction false} RoundTurns(a: seq<Id>, b: seq<Id>, cfg: Config)
    ensures Turns(a + b, |Firing(a, cfg)|, cfg) == Round(a, b, cfg)
    decreases |a|
  {
    hide Touched, Without, Spins;
    if a == [] {
      assert a + b == b;
    } else {
      var gone := Touched(cfg.callback(a[0]));
      var a1 := Without(a[1..], gone);
      var last := if Spins(cfg, a[0]) then [a[0]] else [];
      TailOfJoin(a, b);
      WithoutSplit(a[1..], b, gone);
      assert (a1 + Without(b, gone)) + last == a1 + (Without(b, gone) + last);
      RoundTurns(a1, Without(b, gone) + last, cfg);
      assert Firing(a, cfg)[1..] == Firing(a1, cfg);
    }
  }

  /** Who is left after a round. */
  lemma {:induction false} RoundMembers(a: seq<Id>, b: seq<Id>, cfg: Config, x: Id)
    ensures var fired := Firing(a, cfg);
            x in Round(a, b, cfg) <==>
            (x in b && forall u :: u in fired ==> x !in Touched(cfg.callback(u)))
            || IsLeft(fired, cfg, x)
    decreases |a|
  {
    hide Touched, Without, Spins, IsLeft;
    if a == [] {
      NoneLeft(cfg, x);
    } else {
      var gone := Touched(cfg.callback(a[0]));
      var a1 := Without(a[1..], gone);
      var b1 := Without(b, gone) + if Spins(cfg, a[0]) then [a[0]] else [];
      RoundMembers(a1, b1, cfg, x);
      var rest, fired := Firing(a1, cfg), Firing(a, cfg);
      assert fired == [a[0]] + rest;
      LastsFirst(a[0], rest, cfg, x);
      assert forall u :: u in fired <==> u == a[0] || u in rest;
    }
  }

  lemma NoneLeft(cfg: Config, x: Id)
    ensures !IsLeft([], cfg, x)
  {
  }

  lemma LastsFirst(a: Id, rest: seq<Id>, cfg: Config, x: Id)
    ensures var fired := [a] + rest;
            IsLeft(fired, cfg, x) <==>
            (x == a && Spins(cfg, a) && forall u :: u in rest ==> x !in Touched(cfg.callback(u)))
            || IsLeft(rest, cfg, x)
  {
    hide Touched, Spins;
    var fired := [a] + rest;
    assert fired[0] == a && forall j :: 0 < j < |fired| ==> fired[j] == rest[j - 1];
    assert forall j :: 0 <= j < |rest| ==> fired[j + 1] == rest[j];
    if i :| 0 <= i < |fired| && fired[i] == x && Lasts(fired, i, cfg) {
      if i > 0 {
        assert rest[i - 1] == x && Lasts(rest, i - 1, cfg);
      } else {
        forall u | u in rest ensures x !in Touched(cfg.callback(u)) {
          var j :| 0 <= j < |rest| && rest[j] == u;
          assert fired[j + 1] == u;
        }
      }
    }
    if i :| 0 <= i < |rest| && rest[i] == x && Lasts(rest, i, cfg) {
      assert fired[i + 1] == x && Lasts(fired, i + 1, cfg);
    }
    if x == a && Spins(cfg, a) && forall u :: u in rest ==> x !in Touched(cfg.callback(u)) {
      assert fired[0] == x && Lasts(fired, 0, cfg);
    }
  }

  /** Timers that spin and leave each other alone. */
  predicate Peaceful(q: seq<Id>, cfg: Config) {
    (forall x :: x in q ==> Spins(cfg, x)) && forall x, y :: x in q && y in q ==> y !in Touched(cfg.callback(x))
  }

  lemma {:induction false} RoundPeaceful(a: seq<Id>, b: seq<Id>, cfg: Config)
    requires Peaceful(b, cfg) && forall x, y :: x in b && y in a ==> y !in Touched(cfg.callback(x))
    ensures Peaceful(Round(a, b, cfg), cfg)
    decreases |a|
  {
    hide Touched;
    if a != [] {
      var gone := Touched(cfg.callback(a[0]));
      var b1 := Without(b, gone) + if Spins(cfg, a[0]) then [a[0]] else [];
      assert forall x :: x in b1 <==> (x in b && x !in gone) || (x == a[0] && Spins(cfg, a[0]));
      assert a[0] in a && forall y :: y in a[1..] ==> y in a;
      forall x, y | x in b1 && y in b1 ensures y !in Touched(cfg.callback(x)) {
        if x == a[0] && y != a[0] { assert y !in gone; }
      }
      forall x, y | x in b1 && y in Without(a[1..], gone) ensures y !in Touched(cfg.callback(x)) {
        if x != a[0] { assert x in b && y in a; }
      }
      RoundPeaceful(Without(a[1..], gone), b1, cfg);
    }
  }

  lemma {:induction false} PeacefulTurns(q: seq<Id>, n: nat, cfg: Config)
    requires Peaceful(q, cfg) && q != []
    ensures Turns(q, n, cfg) != []
    decreases n
  {
    hide Touched;
    if n > 0 {
      assert q[0] in q && forall x :: x in q[1..] ==> x in q;
      WithoutNone(q[1..], Touched(cfg.callback(q[0])));
      var r := q[1..] + [q[0]];
      assert forall x :: x in r ==> x in q;
      PeacefulTurns(r, n - 1, cfg);
    }
  }

  lemma {:induction false} TurnsPlus(due: seq<Id>, n: nat, m: nat, cfg: Config)
    ensures Turns(due, n + m, cfg) == Turns(Turns(due, n, cfg), m, cfg)
    decreases n
  {
    hide Turn;
    if n > 0 && due != [] {
      TurnsPlus(Turn(due, cfg), n - 1, m, cfg);
    }
  }

  lemma TurnsEnd(due: seq<Id>, cfg: Config)
    ensures (exists n: nat :: Turns(due, n, cfg) == []) <==> Round(due, [], cfg) == []
  {
    hide Turn, Touched, Without, Spins;
    var k, q := |Firing(due, cfg)|, Round(due, [], cfg);
    RoundTurns(due, [], cfg);
    assert due + [] == due;
    RoundPeaceful(due, [], cfg);
    if n: nat :| Turns(due, n, cfg) == [] {
      if n <= k {
        TurnsPlus(due, n, k - n, cfg);
      } else {
        TurnsPlus(due, k, n - k, cfg);
        if q != [] { PeacefulTurns(q, n - k, cfg); }
      }
    }
  }

  lemma RoundEmpty(due: seq<Id>, cfg: Config)
    ensures var fired := Firing(due, cfg);
            Round(due, [], cfg) == [] <==> forall i :: 0 <= i < |fired| ==> !Lasts(fired, i, cfg)
  {
    hide Lasts, Touched, Without, Spins;
    var q, fired := Round(due, [], cfg), Firing(due, cfg);
    if q != [] {
      RoundMembers(due, [], cfg, q[0]);
    }
    forall i | 0 <= i < |fired| && Lasts(fired, i, cfg) ensures q != [] {
      RoundMembers(due, [], cfg, fired[i]);
      assert IsLeft(fired, cfg, fired[i]);
    }
  }

  /**
   For callbacks that start no zero-tick timers: the loop ends if and only if none of the timers that fire in its first
   round is periodic with period zero and left alone by its own callback and by all that run after it.
   */
  lemma {:induction false} EndsUnlessSpinning(base: Tick, s: State, now: Tick, cfg: Config)
    requires Orderly(base, s) && Reaches(base, now, cfg) && Patient(cfg) && Stoppable(View(s, now))
    ensures var fired := Firing(View(s, now).due, cfg);
            Ends(s, now, cfg) <==> forall i :: 0 <= i < |fired| ==> !Lasts(fired, i, cfg)
  {
    hide Orderly, View, Reaches, Patient, Stoppable, Ends, Passes, Turns, Round, Firing, Lasts;
    var due := View(s, now).due;
    var fired := Firing(due, cfg);
    EndsView(base, s, now, cfg);
    if n: nat :| Passes(View(s, now), n, cfg).due == [] {
      LoopTurns(base, s, n, now, cfg);
      assert Turns(due, n, cfg) == [];
    }
    if n: nat :| Turns(due, n, cfg) == [] {
      LoopTurns(base, s, n, now, cfg);
      assert Passes(View(s, now), n, cfg).due == [];
    }
    TurnsEnd(due, cfg);
    RoundEmpty(due, cfg);
  }
}
