/**
 The expiry loop of `rt_timer_check`, run at one tick `now`, with callbacks that start and stop timers.
 */
module TimerExpiry {
  import opened Common
  import opened Timer

  /** What a timeout function may do to timers. */
  datatype Op = StartOp(t: Id) | StopOp(t: Id)

  /** The fields of each timer that the loop only reads, and the calls its timeout function makes. */
  datatype Config = Config(delay: Id -> Delay, periodic: Id -> bool, callback: Id -> seq<Op>)

  function Apply(s: State, op: Op, now: Tick, cfg: Config): State {
    match op
    case StartOp(t) => Start(s, t, now, cfg.delay(t))
    case StopOp(t) => Stop(s, t).0
  }

  function Run(s: State, ops: seq<Op>, now: Tick, cfg: Config): State
    decreases |ops|
  {
    if ops == [] then s else Run(Apply(s, ops[0], now, cfg), ops[1..], now, cfg)
  }

  function Touched(ops: seq<Op>): set<Id> {
    if ops == [] then {} else {ops[0].t} + Touched(ops[1..])
  }

  /** The expired timers of a list, in list order. */
  function Due(arms: map<Id, Arm>, q: seq<Id>, now: Tick): (r: seq<Id>)
    ensures forall t :: t in r ==> t in q
    decreases |q|
  {
    if q == [] then []
    else if Expired(At(arms, q[0]).timeout, now) then [q[0]] + Due(arms, q[1..], now)
    else Due(arms, q[1..], now)
  }

  lemma {:induction false} DueFrame(arms: map<Id, Arm>, arms': map<Id, Arm>, q: seq<Id>, now: Tick)
    requires forall t :: t in q ==> At(arms, t) == At(arms', t)
    ensures Due(arms, q, now) == Due(arms', q, now)
    decreases |q|
  {
    hide Expired, At;
    if q != [] {
      assert q[0] in q;
      DueFrame(arms, arms', q[1..], now);
    }
  }

  lemma {:induction false} DueSplit(arms: map<Id, Arm>, q: seq<Id>, r: seq<Id>, now: Tick)
    ensures Due(arms, q + r, now) == Due(arms, q, now) + Due(arms, r, now)
    decreases |q|
  {
    hide Expired, At;
    if q == [] {
      assert q + r == r;
    } else {
      DueSplit(arms, q[1..], r, now);
      assert (q + r)[1..] == q[1..] + r;
    }
  }

  lemma {:induction false} DueWithout(arms: map<Id, Arm>, q: seq<Id>, gone: set<Id>, now: Tick)
    ensures Due(arms, Without(q, gone), now) == Without(Due(arms, q, now), gone)
    decreases |q|
  {
    hide Expired, At;
    if q != [] {
      DueWithout(arms, q[1..], gone, now);
      var w := Without(q[1..], gone);
      if q[0] !in gone {
        assert Without(q, gone)[1..] == w;
      }
      if Due(arms, q, now) != Due(arms, q[1..], now) {
        assert Due(arms, q, now)[1..] == Due(arms, q[1..], now);
      }
    }
  }

  lemma LaterNotExpired(now: Tick, delay: Delay)
    ensures Expired(Later(now, delay), now) <==> delay == 0
  {
    var k := (now + delay) / Modulus;
    assert now - Later(now, delay) == (0 - delay) + k * Modulus;
    ModShift(0 - delay, k);
  }

  /** A delay that neither expires at once nor leaves the window. */
  predicate Ahead(base: Tick, now: Tick, delay: Delay) {
    1 <= delay && Diff(now, base) + delay < Half
  }

  /** A start takes the timer out of the expired ones, and puts it back exactly when its delay is zero. */
  lemma StartDue(s: State, t: Id, now: Tick, delay: Delay)
    ensures var s' := Start(s, t, now, delay);
            var p := Position(s.arms, Without(s.linked, {t}), Later(now, delay));
            var cut := |Due(s.arms, Without(s.linked, {t})[..p], now)|;
            var rest := Without(Due(s.arms, s.linked, now), {t});
            && cut <= |rest|
            && Due(s'.arms, s'.linked, now) == if delay == 0 then InsertAt(rest, cut, t) else rest
  {
    hide Expired, After, Without, Later, Position;
    var arm := Arm(Later(now, delay), s.starts);
    var arms' := s.arms[t := arm];
    var rest := Without(s.linked, {t});
    var p := Position(s.arms, rest, arm.timeout);
    LaterNotExpired(now, delay);
    InsertCut(rest, p, t);
    DueSplit(arms', rest[..p], [t] + rest[p..], now);
    assert ([t] + rest[p..])[1..] == rest[p..];
    DueSplit(s.arms, rest[..p], rest[p..], now);
    assert rest == rest[..p] + rest[p..];
    DueFrame(s.arms, arms', rest[..p], now);
    DueFrame(s.arms, arms', rest[p..], now);
    DueWithout(s.arms, s.linked, {t}, now);
    InsertJoined(Due(s.arms, rest[..p], now), Due(s.arms, rest[p..], now), t);
  }

  lemma InsertJoined(a: seq<Id>, b: seq<Id>, t: Id)
    ensures InsertAt(a + b, |a|, t) == a + ([t] + b)
  {
  }

  lemma InsertCut(q: seq<Id>, p: nat, t: Id)
    requires p <= |q|
    ensures InsertAt(q, p, t) == q[..p] + ([t] + q[p..])
  {
  }

  /** Timer `u` is as it was. */
  predicate Same(s: State, s': State, u: Id) {
    && (u in s'.linked <==> u in s.linked)
    && At(s'.arms, u) == At(s.arms, u)
    && (u in s'.activated <==> u in s.activated)
  }

  lemma StartOthers(s: State, t: Id, now: Tick, delay: Delay)
    ensures forall u :: u != t ==> Same(s, Start(s, t, now, delay), u)
  {
    hide Position, Later;
    var rest := Without(s.linked, {t});
    InsertMembers(rest, Position(s.arms, rest, Later(now, delay)), t);
  }

  lemma StopOthers(base: Tick, s: State, t: Id)
    requires Inv(base, s)
    ensures var s' := Stop(s, t).0; t !in s'.linked && forall u :: u != t ==> Same(s, s', u)
  {
    hide Ordered, Windowed;
  }

  lemma ApplyKeeps(base: Tick, s: State, op: Op, now: Tick, cfg: Config)
    requires Inv(base, s) && (op.StartOp? ==> Ahead(base, now, cfg.delay(op.t)))
    ensures var s' := Apply(s, op, now, cfg);
            && Inv(base, s')
            && Due(s'.arms, s'.linked, now) == Without(Due(s.arms, s.linked, now), {op.t})
            && (forall u :: u != op.t ==> Same(s, s', u))
            && (op.StopOp? ==> op.t !in s'.linked)
  {
    hide Inv, Due, Start, Stop, Same;
    match op
    case StartOp(t) =>
      StartKeepsInv(base, s, t, now, cfg.delay(t));
      StartDue(s, t, now, cfg.delay(t));
      StartOthers(s, t, now, cfg.delay(t));
    case StopOp(t) =>
      StopKeepsInv(base, s, t);
      StopOthers(base, s, t);
      StopArms(s, t);
      DueWithout(s.arms, s.linked, {t}, now);
  }

  lemma StopArms(s: State, t: Id)
    ensures Stop(s, t).0.arms == s.arms
  {
  }

  /** What a whole callback does: the expired timers lose exactly those it touches, and others stay as they were. */
  lemma {:induction false} RunKeeps(base: Tick, s: State, ops: seq<Op>, now: Tick, cfg: Config)
    requires Inv(base, s) && forall u :: StartOp(u) in ops ==> Ahead(base, now, cfg.delay(u))
    ensures var s' := Run(s, ops, now, cfg);
            && Inv(base, s')
            && Due(s'.arms, s'.linked, now) == Without(Due(s.arms, s.linked, now), Touched(ops))
            && (forall u :: u !in Touched(ops) ==> Same(s, s', u))
    decreases |ops|
  {
    hide Inv, Due, Without, Apply;
    if ops == [] {
      WithoutNone(Due(s.arms, s.linked, now), {});
    } else {
      var op, rest := ops[0], ops[1..];
      assert op in ops;
      if op.StartOp? { assert StartOp(op.t) in ops; }
      var s1 := Apply(s, op, now, cfg);
      ApplyKeeps(base, s, op, now, cfg);
      RunKeeps(base, s1, rest, now, cfg);
      WithoutTwice(Due(s.arms, s.linked, now), {op.t}, Touched(rest));
      forall u | u !in Touched(ops) ensures Same(s, Run(s, ops, now, cfg), u) {
        assert Same(s, s1, u) && Same(s1, Run(s1, rest, now, cfg), u);
      }
    }
  }

  /** The last of these calls on `t` is a start. */
  ghost predicate StartsLast(ops: seq<Op>, t: Id) {
    exists k :: 0 <= k < |ops| && LastStart(ops, t, k)
  }

  ghost predicate LastStart(ops: seq<Op>, t: Id, k: nat)
    requires k < |ops|
  {
    ops[k] == StartOp(t) && forall j :: k < j < |ops| ==> ops[j].t != t
  }

  lemma {:induction false} TouchedMembers(ops: seq<Op>, t: Id)
    ensures t in Touched(ops) <==> exists k :: 0 <= k < |ops| && ops[k].t == t
  {
    if ops != [] {
      TouchedMembers(ops[1..], t);
      if t in Touched(ops[1..]) {
        var k :| 0 <= k < |ops[1..]| && ops[1..][k].t == t;
        assert ops[k + 1].t == t;
      }
    }
  }

  lemma StartsLastFirst(ops: seq<Op>, t: Id)
    requires ops != []
    ensures StartsLast(ops, t) <==> StartsLast(ops[1..], t) || (ops[0] == StartOp(t) && t !in Touched(ops[1..]))
  {
    var rest := ops[1..];
    TouchedMembers(rest, t);
    if StartsLast(rest, t) {
      var k :| 0 <= k < |rest| && LastStart(rest, t, k);
      assert forall j :: k + 1 < j < |ops| ==> ops[j] == rest[j - 1];
      assert LastStart(ops, t, k + 1);
    } else if ops[0] == StartOp(t) && t !in Touched(rest) {
      assert forall j :: 0 < j < |ops| ==> ops[j] == rest[j - 1];
      assert LastStart(ops, t, 0);
    }
    if StartsLast(ops, t) {
      var k :| 0 <= k < |ops| && LastStart(ops, t, k);
      assert forall j :: 0 <= j < |rest| ==> rest[j] == ops[j + 1];
      if k > 0 { assert LastStart(rest, t, k - 1); }
    }
  }

  lemma ApplyLinks(s: State, op: Op, now: Tick, cfg: Config, t: Id)
    requires t in s.linked ==> t in s.activated
    ensures var s' := Apply(s, op, now, cfg);
            if op.t == t then (t in s'.linked <==> op.StartOp?) && (t in s'.activated <==> op.StartOp?)
            else Same(s, s', t)
  {
    hide Position, Later;
    if op.StartOp? {
      var rest := Without(s.linked, {op.t});
      InsertMembers(rest, Position(s.arms, rest, Later(now, cfg.delay(op.t))), op.t);
    }
  }

  /** After a callback a timer is linked, and activated, if its last call on it started it, or made none and it was. */
  lemma {:induction false} RunLinks(s: State, ops: seq<Op>, now: Tick, cfg: Config, t: Id)
    requires t in s.linked ==> t in s.activated
    ensures var s' := Run(s, ops, now, cfg);
            && (t in s'.linked <==> StartsLast(ops, t) || (t in s.linked && t !in Touched(ops)))
            && (t in s'.activated <==> StartsLast(ops, t) || (t in s.activated && t !in Touched(ops)))
    decreases |ops|
  {
    hide Apply, StartsLast;
    if ops == [] {
      assert !StartsLast(ops, t) by { NoLastStart(t); }
    } else {
      ApplyLinks(s, ops[0], now, cfg, t);
      StartsLastFirst(ops, t);
      RunLinks(Apply(s, ops[0], now, cfg), ops[1..], now, cfg, t);
    }
  }

  lemma NoLastStart(t: Id)
    ensures !StartsLast([], t)
  {
  }

  // ---- One pass of the loop ----

  /** The head timer expires: unlink it, run its callback, then re-arm or deactivate it. */
  function Fire(s: State, now: Tick, cfg: Config): State
    requires s.linked != []
  {
    var t := s.linked[0];
    var s2 := Run(s.(linked := Without(s.linked, {t})), cfg.callback(t), now, cfg);
    var s3 := s2.(activated := s2.activated - {t});
    if cfg.periodic(t) && t in s2.activated then Start(s3, t, now, cfg.delay(t)) else s3
  }

  /** Delays stay in the window, no callback starts a zero-tick timer or leaves its own one-shot timer started. */
  ghost predicate Tame(base: Tick, now: Tick, cfg: Config) {
    && (forall t :: cfg.periodic(t) ==> Diff(now, base) + cfg.delay(t) < Half)
    && (forall t, u :: StartOp(u) in cfg.callback(t) ==> Ahead(base, now, cfg.delay(u)))
    && (forall t :: StartsLast(cfg.callback(t), t) ==> cfg.periodic(t))
  }

  /** Besides, periods are at least one tick. */
  ghost predicate Sane(base: Tick, now: Tick, cfg: Config) {
    Tame(base, now, cfg) && forall t :: cfg.periodic(t) ==> cfg.delay(t) >= 1
  }

  /** A periodic timer of zero ticks that its own callback leaves alone. */
  predicate Spins(cfg: Config, t: Id) {
    cfg.periodic(t) && cfg.delay(t) == 0 && t !in Touched(cfg.callback(t))
  }

  /** What one pass does to the expired timers: the head leaves, or goes behind them all if it spins. */
  function Turn(due: seq<Id>, cfg: Config): seq<Id>
    requires due != []
  {
    Without(due[1..], Touched(cfg.callback(due[0]))) + if Spins(cfg, due[0]) then [due[0]] else []
  }

  predicate HeadDue(s: State, now: Tick) {
    s.linked != [] && Expired(At(s.arms, s.linked[0]).timeout, now)
  }

  lemma {:induction false} HeadUnlinked(base: Tick, s: State, now: Tick)
    requires Inv(base, s) && HeadDue(s, now)
    ensures var t := s.linked[0];
            var due := Due(s.arms, s.linked, now);
            && due != [] && due[0] == t && t !in due[1..]
            && Inv(base, s.(linked := Without(s.linked, {t})))
            && Due(s.arms, Without(s.linked, {t}), now) == due[1..]
  {
    hide Expired, At;
    var t, rest := s.linked[0], s.linked[1..];
    forall k | 0 <= k < |rest| ensures rest[k] != t {
      assert Before(base, s.arms, s.linked[0], s.linked[k + 1]);
    }
    WithoutOrdered(base, s.arms, s.linked, {t});
    WithoutNone(rest, {t});
  }

  /** What firing leaves of a timer no callback touches: periodic ones re-armed, one-shot ones stopped. */
  predicate Settled(s: State, t: Id, now: Tick, cfg: Config) {
    if cfg.periodic(t) then t in s.linked && t in s.activated && At(s.arms, t).timeout == Later(now, cfg.delay(t))
    else t !in s.linked && t !in s.activated
  }

  lemma Rearm(base: Tick, s: State, t: Id, now: Tick, cfg: Config)
    requires Inv(base, s) && Ahead(base, now, cfg.delay(t)) && t !in Due(s.arms, s.linked, now)
    ensures var s' := Start(s.(activated := s.activated - {t}), t, now, cfg.delay(t));
            && Inv(base, s')
            && Due(s'.arms, s'.linked, now) == Due(s.arms, s.linked, now)
            && (forall u :: u != t ==> Same(s, s', u))
            && t in s'.linked && t in s'.activated && At(s'.arms, t).timeout == Later(now, cfg.delay(t))
  {
    hide Inv, Due, Ahead, Start, Expired, Later;
    RestartIsStart(s, t, now, cfg.delay(t));
    ApplyKeeps(base, s, StartOp(t), now, cfg);
    WithoutNone(Due(s.arms, s.linked, now), {t});
  }

  lemma RestartIsStart(s: State, t: Id, now: Tick, delay: Delay)
    ensures Start(s.(activated := s.activated - {t}), t, now, delay) == Start(s, t, now, delay)
    ensures var s' := Start(s, t, now, delay);
            t in s'.linked && t in s'.activated && At(s'.arms, t).timeout == Later(now, delay)
  {
    hide Position, Without, Later;
    assert s.activated - {t} + {t} == s.activated + {t};
    var rest := Without(s.linked, {t});
    var p := Position(s.arms, rest, Later(now, delay));
    assert InsertAt(rest, p, t)[p] == t;
  }

  lemma Deactivate(base: Tick, s: State, t: Id)
    requires Inv(base, s) && t !in s.linked
    ensures Inv(base, s.(activated := s.activated - {t}))
  {
    hide Ordered, Windowed;
  }

  lemma LinkedIsActivated(base: Tick, s: State, t: Id)
    requires Inv(base, s) && t in s.linked
    ensures t in s.activated
  {
  }

  lemma {:induction false} NoneOfLater(arms: map<Id, Arm>, q: seq<Id>, now: Tick)
    requires forall k :: 0 <= k < |q| ==> !Expired(At(arms, q[k]).timeout, now)
    ensures Due(arms, q, now) == []
    decreases |q|
  {
    hide Expired, At;
    if q != [] {
      forall k | 0 <= k < |q[1..]| ensures !Expired(At(arms, q[1..][k]).timeout, now) { assert q[1..][k] == q[k + 1]; }
      NoneOfLater(arms, q[1..], now);
    }
  }

  /** A timer started for now goes behind all that are expired. */
  lemma ZeroGoesLast(base: Tick, arms: map<Id, Arm>, q: seq<Id>, now: Tick)
    requires Windowed(base, arms, q) && Ordered(base, arms, q) && InWindow(base, now)
    ensures var p := Position(arms, q, Later(now, 0)); Due(arms, q[..p], now) == Due(arms, q, now)
  {
    hide Ordered, Position, Expired;
    assert Later(now, 0) == now;
    var p := Position(arms, q, now);
    PositionSplits(base, arms, q, now);
    forall k | 0 <= k < |q[p..]| ensures !Expired(At(arms, q[p..][k]).timeout, now) {
      assert q[p..][k] == q[p + k] && q[p + k] in q;
      WindowOrder(base, At(arms, q[p + k]).timeout, now);
    }
    NoneOfLater(arms, q[p..], now);
    DueSplit(arms, q[..p], q[p..], now);
    assert q == q[..p] + q[p..];
  }

  lemma RearmNow(base: Tick, s: State, t: Id, now: Tick, cfg: Config)
    requires Inv(base, s) && InWindow(base, now) && cfg.delay(t) == 0 && t !in s.linked
    ensures var s' := Start(s.(activated := s.activated - {t}), t, now, cfg.delay(t));
            && Inv(base, s')
            && Due(s'.arms, s'.linked, now) == Due(s.arms, s.linked, now) + [t]
            && (forall u :: u != t ==> Same(s, s', u))
            && t in s'.linked && t in s'.activated && At(s'.arms, t).timeout == Later(now, cfg.delay(t))
  {
    hide Due, Later, Expired, Ordered, Windowed, Position, Without;
    RestartIsStart(s, t, now, 0);
    StartKeepsInv(base, s, t, now, 0);
    StartDue(s, t, now, 0);
    WithoutNone(s.linked, {t});
    WithoutNone(Due(s.arms, s.linked, now), {t});
    ZeroGoesLast(base, s.arms, s.linked, now);
    InsertMembers(s.linked, Position(s.arms, s.linked, Later(now, 0)), t);
  }

  /** One pass: the order is kept, the expired timers turn, and a timer no callback touches is as it should be. */
  lemma FireTurns(base: Tick, s: State, now: Tick, cfg: Config)
    requires Inv(base, s) && Tame(base, now, cfg) && HeadDue(s, now)
    ensures var t := s.linked[0];
            var s' := Fire(s, now, cfg);
            && Inv(base, s')
            && Due(s.arms, s.linked, now) != [] && Due(s.arms, s.linked, now)[0] == t
            && Due(s'.arms, s'.linked, now) == Turn(Due(s.arms, s.linked, now), cfg)
            && (forall u :: u != t && u !in Touched(cfg.callback(t)) ==> Same(s, s', u))
            && (t !in Touched(cfg.callback(t)) ==> Settled(s', t, now, cfg))
  {
    hide Inv, Due, Run, Ahead, Expired, Start, Later, Touched, StartsLast, Diff;
    var t := s.linked[0];
    var ops := cfg.callback(t);
    HeadUnlinked(base, s, now);
    LinkedIsActivated(base, s, t);
    var s1 := s.(linked := Without(s.linked, {t}));
    RunKeeps(base, s1, ops, now, cfg);
    RunLinks(s1, ops, now, cfg, t);
    var s2 := Run(s1, ops, now, cfg);
    var s' := Fire(s, now, cfg);
    var rest := Without(Due(s.arms, s.linked, now)[1..], Touched(ops));
    if cfg.periodic(t) && t in s2.activated {
      if cfg.delay(t) == 0 {
        NotStarted(base, now, cfg, ops, t);
        RearmNow(base, s2, t, now, cfg);
      } else {
        assert rest + [] == rest && Ahead(base, now, cfg.delay(t)) by { IsAhead(base, now, cfg.delay(t)); }
        Rearm(base, s2, t, now, cfg);
      }
    } else {
      assert t !in s2.linked;
      assert rest + [] == rest;
      Deactivate(base, s2, t);
    }
    forall u | u != t && u !in Touched(ops) ensures Same(s, s', u) {
      assert Same(s, s1, u) && Same(s1, s2, u) && Same(s2, s', u);
    }
    if t !in Touched(ops) {
      assert Same(s1, s2, t);
    }
  }

  lemma IsAhead(base: Tick, now: Tick, delay: Delay)
    requires Diff(now, base) + delay < Half && delay != 0
    ensures Ahead(base, now, delay)
  {
  }

  lemma NotStarted(base: Tick, now: Tick, cfg: Config, ops: seq<Op>, t: Id)
    requires (forall u :: StartOp(u) in ops ==> Ahead(base, now, cfg.delay(u))) && cfg.delay(t) == 0
    ensures !StartsLast(ops, t)
    ensures cfg.periodic(t) && Diff(now, base) + cfg.delay(t) < Half ==> InWindow(base, now)
  {
    assert StartOp(t) !in ops;
    forall k | 0 <= k < |ops| ensures !LastStart(ops, t, k) {
      assert ops[k] in ops;
    }
  }

  /** With periods of at least one tick, one pass takes out the fired timer and those its callback touches. */
  lemma FireKeeps(base: Tick, s: State, now: Tick, cfg: Config)
    requires Inv(base, s) && Sane(base, now, cfg) && HeadDue(s, now)
    ensures var t := s.linked[0];
            var s' := Fire(s, now, cfg);
            && Inv(base, s')
            && Due(s.arms, s.linked, now) != [] && Due(s.arms, s.linked, now)[0] == t
            && Due(s'.arms, s'.linked, now) == Without(Due(s.arms, s.linked, now)[1..], Touched(cfg.callback(t)))
            && (forall u :: u != t && u !in Touched(cfg.callback(t)) ==> Same(s, s', u))
            && (t !in Touched(cfg.callback(t)) ==> Settled(s', t, now, cfg))
  {
    hide Inv, Due, Fire, Tame, Same, Touched;
    FireTurns(base, s, now, cfg);
    var rest := Without(Due(s.arms, s.linked, now)[1..], Touched(cfg.callback(s.linked[0])));
    assert rest + [] == rest;
  }

  // ---- The whole loop ----

  /** No timer is expired once the head is not: later timers time out later. */
  lemma HeadNotDue(base: Tick, s: State, now: Tick)
    requires Inv(base, s) && InWindow(base, now) && !HeadDue(s, now)
    ensures Due(s.arms, s.linked, now) == []
  {
    NoneDue(base, s.arms, s.linked, now);
  }

  lemma {:induction false} NoneDue(base: Tick, arms: map<Id, Arm>, q: seq<Id>, now: Tick)
    requires Ordered(base, arms, q) && Windowed(base, arms, q) && InWindow(base, now)
    requires q != [] ==> !Expired(At(arms, q[0]).timeout, now)
    ensures Due(arms, q, now) == []
    decreases |q|
  {
    hide Diff, Expired;
    if q != [] {
      assert q[0] in q;
      WindowOrder(base, now, At(arms, q[0]).timeout);
      WindowOrder(base, At(arms, q[0]).timeout, now);
      if |q| > 1 {
        assert q[1] in q && Before(base, arms, q[0], q[1]);
        WindowOrder(base, At(arms, q[1]).timeout, now);
      }
      NoneDue(base, arms, q[1..], now);
    }
  }

  /** `rt_timer_check` at tick `now`: the final state and the timers whose callbacks ran, in order. */
  ghost function Check(base: Tick, s: State, now: Tick, cfg: Config): (State, seq<Id>)
    requires Inv(base, s) && Sane(base, now, cfg)
    decreases |Due(s.arms, s.linked, now)|
  {
    if !HeadDue(s, now) then (s, [])
    else
      FireKeeps(base, s, now, cfg);
      var (s', fired) := Check(base, Fire(s, now, cfg), now, cfg);
      (s', [s.linked[0]] + fired)
  }

  /** The callbacks that should run: the expired timers in order, each cancelling those it stops or restarts. */
  function Firing(due: seq<Id>, cfg: Config): (fired: seq<Id>)
    ensures forall t :: t in fired ==> t in due
    decreases |due|
  {
    if due == [] then []
    else [due[0]] + Firing(Without(due[1..], Touched(cfg.callback(due[0]))), cfg)
  }

  /** The loop ends, fires exactly those, keeps the list in order and leaves no expired timer running. */
  lemma {:induction false} CheckFires(base: Tick, s: State, now: Tick, cfg: Config)
    requires Inv(base, s) && Sane(base, now, cfg) && InWindow(base, now)
    ensures var (s', fired) := Check(base, s, now, cfg);
            && fired == Firing(Due(s.arms, s.linked, now), cfg)
            && Inv(base, s')
            && Due(s'.arms, s'.linked, now) == []
    decreases |Due(s.arms, s.linked, now)|
  {
    hide Inv, Due, Fire, Sane, Touched;
    if HeadDue(s, now) {
      FireKeeps(base, s, now, cfg);
      CheckFires(base, Fire(s, now, cfg), now, cfg);
    } else {
      HeadNotDue(base, s, now);
    }
  }

  /** Every timer no fired callback touches ends re-armed or stopped if it fired, and as it was if it did not. */
  lemma {:induction false} CheckSettles(base: Tick, s: State, now: Tick, cfg: Config, u: Id)
    requires Inv(base, s) && Sane(base, now, cfg) && InWindow(base, now)
    requires forall t :: t in Check(base, s, now, cfg).1 ==> u !in Touched(cfg.callback(t))
    ensures var (s', fired) := Check(base, s, now, cfg);
            if u in fired then Settled(s', u, now, cfg) else Same(s, s', u)
    decreases |Due(s.arms, s.linked, now)|
  {
    hide Inv, Due, Fire, Sane, Touched;
    if HeadDue(s, now) {
      FireKeeps(base, s, now, cfg);
      HeadUnlinked(base, s, now);
      var t, s1 := s.linked[0], Fire(s, now, cfg);
      var (s', fired) := Check(base, s1, now, cfg);
      assert Check(base, s, now, cfg) == (s', [t] + fired);
      CheckFires(base, s1, now, cfg);
      CheckSettles(base, s1, now, cfg, u);
      assert u !in Touched(cfg.callback(t));
    }
  }

  /** The timers in front of `t`. */
  function Front(q: seq<Id>, t: Id): set<Id> {
    if q == [] || q[0] == t then {} else {q[0]} + Front(q[1..], t)
  }

  lemma {:induction false} FrontWithout(q: seq<Id>, t: Id, gone: set<Id>)
    requires t !in gone
    ensures Front(Without(q, gone), t) == Front(q, t) - gone
  {
    if q != [] && q[0] != t {
      FrontWithout(q[1..], t, gone);
      if q[0] !in gone {
        assert Without(q, gone)[1..] == Without(q[1..], gone);
      }
    }
  }

  /** An expired timer fires exactly when no timer that fires before it touches it. */
  lemma {:induction false} FiresUnlessTouched(due: seq<Id>, cfg: Config, t: Id)
    ensures t in Firing(due, cfg) <==>
            t in due && forall u :: u in Front(due, t) && u in Firing(due, cfg) ==> t !in Touched(cfg.callback(u))
    decreases |due|
  {
    hide Touched, Without;
    if due != [] && due[0] != t {
      var gone := Touched(cfg.callback(due[0]));
      var rest := Without(due[1..], gone);
      FiresUnlessTouched(rest, cfg, t);
      if t !in gone {
        FrontWithout(due[1..], t, gone);
      }
    }
  }

  lemma {:induction false} WithoutDistinct(q: seq<Id>, gone: set<Id>)
    requires NoDup(q)
    ensures NoDup(Without(q, gone))
  {
    if q != [] {
      WithoutDistinct(q[1..], gone);
      assert q[0] !in q[1..];
    }
  }

  /** No callback runs twice in one check. */
  lemma {:induction false} FiresOnce(due: seq<Id>, cfg: Config)
    requires NoDup(due)
    ensures NoDup(Firing(due, cfg))
    decreases |due|
  {
    hide Touched, Without;
    if due != [] {
      var gone := Touched(cfg.callback(due[0]));
      WithoutDistinct(due[1..], gone);
      FiresOnce(Without(due[1..], gone), cfg);
      assert due[0] !in due[1..];
    }
  }

  lemma {:induction false} DueDistinct(base: Tick, arms: map<Id, Arm>, q: seq<Id>, now: Tick)
    requires Ordered(base, arms, q)
    ensures NoDup(Due(arms, q, now))
    decreases |q|
  {
    hide Expired, At;
    if q != [] {
      DueDistinct(base, arms, q[1..], now);
      forall k | 0 < k < |q| ensures q[k] != q[0] {
        assert Before(base, arms, q[0], q[k]);
      }
      assert q[0] !in q[1..];
    }
  }

  // ---- Runs ----

  /** Between clock ticks timers are started and stopped; each tick runs the expiry loop. */
  datatype Event = StartEvent(t: Id) | StopEvent(t: Id) | TickEvent

  /** Every running timer lies ahead of the current tick, in expiry order. */
  ghost predicate Running(now: Tick, s: State) {
    Inv(now, s) && Due(s.arms, s.linked, now) == []
  }

  /** The window moves with the clock: nothing expired, so every timer is at least one tick ahead. */
  lemma Rebase(now: Tick, s: State)
    requires Running(now, s)
    ensures Inv(Later(now, 1), s)
  {
    hide Before;
    var next := Later(now, 1);
    forall t | t in s.linked ensures Key(next, s.arms, t) == Key(now, s.arms, t) - 1 {
      NotDueAhead(s.arms, s.linked, now, t);
      OneCloser(now, At(s.arms, t).timeout);
    }
    RebaseOrdered(now, s.arms, s.linked, next);
  }

  lemma RebaseOrdered(now: Tick, arms: map<Id, Arm>, q: seq<Id>, next: Tick)
    requires Ordered(now, arms, q) && forall t :: t in q ==> Key(next, arms, t) == Key(now, arms, t) - 1
    ensures Ordered(next, arms, q)
  {
    hide Key;
    forall i, j | 0 <= i < j < |q| ensures Before(next, arms, q[i], q[j]) {
      assert q[i] in q && q[j] in q && Before(now, arms, q[i], q[j]);
    }
  }

  lemma {:induction false} NotDueAhead(arms: map<Id, Arm>, q: seq<Id>, now: Tick, t: Id)
    requires Due(arms, q, now) == [] && t in q
    ensures Diff(At(arms, t).timeout, now) != 0
    decreases |q|
  {
    if q[0] != t {
      NotDueAhead(arms, q[1..], now, t);
    }
  }

  lemma OneCloser(now: Tick, t: Tick)
    requires Diff(t, now) != 0
    ensures Diff(t, Later(now, 1)) == Diff(t, now) - 1
  {
  }

  /** The settings of a run: every delay is at least one tick, and no callback leaves its own one-shot timer started. */
  ghost predicate Positive(cfg: Config) {
    && (forall t :: cfg.delay(t) >= 1)
    && (forall t :: StartsLast(cfg.callback(t), t) ==> cfg.periodic(t))
  }

  ghost function Next(now: Tick, s: State, e: Event, cfg: Config): (r: (Tick, State))
    requires Running(now, s) && Positive(cfg)
  {
    match e
    case StartEvent(t) => (now, Start(s, t, now, cfg.delay(t)))
    case StopEvent(t) => (now, Stop(s, t).0)
    case TickEvent =>
      Rebase(now, s);
      var next := Later(now, 1);
      (next, Check(next, s, next, cfg).0)
  }

  lemma NextKeeps(now: Tick, s: State, e: Event, cfg: Config)
    requires Running(now, s) && Positive(cfg)
    ensures var (now', s') := Next(now, s, e, cfg); Running(now', s')
  {
    hide Inv, Due, Check, Start, Stop, Expired;
    match e
    case StartEvent(t) => ApplyKeeps(now, s, StartOp(t), now, cfg);
    case StopEvent(t) => ApplyKeeps(now, s, StopOp(t), now, cfg);
    case TickEvent =>
      Rebase(now, s);
      CheckFires(Later(now, 1), s, Later(now, 1), cfg);
  }

  ghost function RunEvents(now: Tick, s: State, events: seq<Event>, cfg: Config): (r: (Tick, State))
    requires Running(now, s) && Positive(cfg)
    decreases |events|
  {
    if events == [] then (now, s)
    else
      NextKeeps(now, s, events[0], cfg);
      var (now', s') := Next(now, s, events[0], cfg);
      RunEvents(now', s', events[1..], cfg)
  }

  /** From no running timers, at any tick, every run keeps expiry order and never leaves an expired timer running. */
  lemma {:induction false} OrderedInAnyRun(now: Tick, s: State, events: seq<Event>, cfg: Config)
    requires Running(now, s) && Positive(cfg)
    ensures var (now', s') := RunEvents(now, s, events, cfg); Running(now', s')
    decreases |events|
  {
    hide Running, Next;
    if events != [] {
      NextKeeps(now, s, events[0], cfg);
      var (now', s') := Next(now, s, events[0], cfg);
      OrderedInAnyRun(now', s', events[1..], cfg);
    }
  }

  // ---- Restarting oneself, and starting or stopping from two sides ----

  /** A one-shot timer ends up linked but not activated, refused by stop, exactly if its callback leaves it started. */
  lemma {:induction false} SelfRestart(base: Tick, s: State, now: Tick, cfg: Config)
    requires Inv(base, s) && HeadDue(s, now) && !cfg.periodic(s.linked[0])
    ensures var t, s' := s.linked[0], Fire(s, now, cfg);
            && (t in s'.linked && t !in s'.activated <==> StartsLast(cfg.callback(t), t))
            && (t in s'.linked ==> Stop(s', t) == (s', ERROR))
  {
    hide Run, StartsLast, Expired;
    var t := s.linked[0];
    LinkedIsActivated(base, s, t);
    RunLinks(s.(linked := Without(s.linked, {t})), cfg.callback(t), now, cfg, t);
  }

  /**
   `rt_timer_start` with other calls between its two locked regions: the list stays in order if and only if none of
   them leaves this timer started, and without any such call the two regions are the start in one step.
   */
  lemma StartInterleaved(base: Tick, s: State, t: Id, mid: seq<Op>, now: Tick, cfg: Config)
    requires Inv(base, s) && Diff(now, base) + cfg.delay(t) < Half
    requires forall u :: StartOp(u) in mid ==> Ahead(base, now, cfg.delay(u))
    ensures var s1 := Detach(s, t); var s2 := Run(s1, mid, now, cfg);
            && Inv(base, s1) && Inv(base, s2)
            && (Inv(base, Link(s2, t, Later(now, cfg.delay(t)))) <==> !StartsLast(mid, t))
            && (mid == [] ==> Link(s2, t, Later(now, cfg.delay(t))) == Start(s, t, now, cfg.delay(t)))
  {
    hide Inv, Run, StartsLast, Link, Diff, Later;
    var s1 := Detach(s, t);
    DetachKeepsInv(base, s, t);
    RunKeeps(base, s1, mid, now, cfg);
    RunLinks(s1, mid, now, cfg, t);
    LaterBy(base, now, cfg.delay(t));
    LinkKeepsInv(base, Run(s1, mid, now, cfg), t, Later(now, cfg.delay(t)));
    StartInTwo(s, t, now, cfg.delay(t));
    RunNoOps(s1, now, cfg);
  }

  lemma RunNoOps(s: State, now: Tick, cfg: Config)
    ensures Run(s, [], now, cfg) == s
  {
  }

  /** `rt_timer_stop` clears the flag after its locked region: with other calls in between, the same condition. */
  lemma StopInterleaved(base: Tick, s: State, t: Id, mid: seq<Op>, now: Tick, cfg: Config)
    requires Inv(base, s) && t in s.activated
    requires forall u :: StartOp(u) in mid ==> Ahead(base, now, cfg.delay(u))
    ensures var s1 := s.(linked := Without(s.linked, {t})); var s2 := Run(s1, mid, now, cfg);
            && Inv(base, s1) && Inv(base, s2)
            && (Inv(base, s2.(activated := s2.activated - {t})) <==> !StartsLast(mid, t))
            && (mid == [] ==> (s2.(activated := s2.activated - {t}), EOK) == Stop(s, t))
  {
    hide Inv, Run, StartsLast;
    var s1 := s.(linked := Without(s.linked, {t}));
    DetachKeepsInv(base, s, t);
    RunKeeps(base, s1, mid, now, cfg);
    RunLinks(s1, mid, now, cfg, t);
    var s2 := Run(s1, mid, now, cfg);
    if t in s2.linked {
      Unflagged(base, s2, t);
    } else {
      Deactivate(base, s2, t);
    }
    RunNoOps(s1, now, cfg);
  }

  lemma Unflagged(base: Tick, s: State, t: Id)
    requires t in s.linked
    ensures !Inv(base, s.(activated := s.activated - {t}))
  {
  }
}
