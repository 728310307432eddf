/**
 Timers as their callers see them: what a start and a stop answer and change, and at which ticks of a run a timer
 fires that is left alone once it runs.
 */
module TimerCalls {
  import opened Common
  import opened Timer
  import opened TimerExpiry

  /** The timer is linked and flagged, exactly `delay` ticks from now; every other timer is as it was, in its order. */
  lemma StartAnswers(base: Tick, s: State, t: Id, now: Tick, delay: Delay)
    requires Inv(base, s) && Diff(now, base) + delay < Half
    ensures var s' := Start(s, t, now, delay);
            && Inv(base, s')
            && t in s'.linked && t in s'.activated && Diff(At(s'.arms, t).timeout, now) == delay
            && (forall u :: u in s.linked && u != t ==> At(s'.arms, t).stamp > At(s'.arms, u).stamp)
            && Without(s'.linked, {t}) == Without(s.linked, {t})
            && forall u :: u != t ==> Same(s, s', u)
  {
    hide Ordered, Windowed, Without, Later, Position;
    StartKeepsInv(base, s, t, now, delay);
    StartOthers(s, t, now, delay);
    RestartIsStart(s, t, now, delay);
    Distance(now, delay);
    forall u | u in s.linked && u != t ensures At(Start(s, t, now, delay).arms, t).stamp > At(s.arms, u).stamp {
      assert At(s.arms, u).stamp < s.starts;
    }
  }

  lemma Distance(now: Tick, delay: Delay)
    ensures Diff(Later(now, delay), now) == delay
  {
    var k := (now + delay) / Modulus;
    assert Later(now, delay) - now == delay + (-k) * Modulus;
    ModShift(delay, -k);
  }

  /** Refused exactly for a timer that is not activated; else it is neither linked nor flagged, and all else is kept. */
  lemma StopAnswers(base: Tick, s: State, t: Id)
    requires Inv(base, s)
    ensures var (s', err) := Stop(s, t);
            && err == (if t in s.activated then EOK else ERROR)
            && t !in s'.linked && t !in s'.activated
            && s'.arms == s.arms && s'.starts == s.starts
            && s'.linked == Without(s.linked, {t})
            && forall u :: u != t ==> Same(s, s', u)
  {
    hide Ordered, Windowed;
    StopKeepsInv(base, s, t);
    StopOthers(base, s, t);
    StopArms(s, t);
  }

  // ---- At which ticks a timer fires ----

  /** The timers whose callbacks run at this event of a run. */
  ghost function Fired(now: Tick, s: State, e: Event, cfg: Config): seq<Id>
    requires Running(now, s) && Positive(cfg)
  {
    if e.TickEvent? then
      Rebase(now, s);
      Check(Later(now, 1), s, Later(now, 1), cfg).1
    else []
  }

  /** No call of the run, made between ticks or by a callback that fires, is on `t`. */
  ghost predicate LeftAlone(now: Tick, s: State, events: seq<Event>, cfg: Config, t: Id)
    requires Running(now, s) && Positive(cfg)
    decreases |events|
  {
    events == []
    || (&& AloneAt(now, s, events[0], cfg, t)
        && (NextKeeps(now, s, events[0], cfg);
            var (now', s') := Next(now, s, events[0], cfg);
            LeftAlone(now', s', events[1..], cfg, t)))
  }

  ghost predicate AloneAt(now: Tick, s: State, e: Event, cfg: Config, t: Id)
    requires Running(now, s) && Positive(cfg)
  {
    match e
    case StartEvent(u) => u != t
    case StopEvent(u) => u != t
    case TickEvent => forall u :: u in Fired(now, s, e, cfg) ==> t !in Touched(cfg.callback(u))
  }

  /** How often the callback of `t` runs in the run. */
  ghost function Count(now: Tick, s: State, events: seq<Event>, cfg: Config, t: Id): nat
    requires Running(now, s) && Positive(cfg)
    decreases |events|
  {
    if events == [] then 0
    else
      NextKeeps(now, s, events[0], cfg);
      var (now', s') := Next(now, s, events[0], cfg);
      (if t in Fired(now, s, events[0], cfg) then 1 else 0) + Count(now', s', events[1..], cfg, t)
  }

  function Ticks(events: seq<Event>): nat {
    if events == [] then 0 else (if events[0].TickEvent? then 1 else 0) + Ticks(events[1..])
  }

  /** The ticks until `t` times out. */
  function Ahead(now: Tick, s: State, t: Id): nat {
    Diff(At(s.arms, t).timeout, now)
  }

  lemma {:induction false} DueIs(arms: map<Id, Arm>, q: seq<Id>, now: Tick, t: Id)
    ensures t in Due(arms, q, now) <==> t in q && Expired(At(arms, t).timeout, now)
    decreases |q|
  {
    hide Expired, At;
    if q != [] {
      DueIs(arms, q[1..], now, t);
      assert q == [q[0]] + q[1..];
    }
  }

  lemma RunningAhead(now: Tick, s: State, t: Id)
    requires Running(now, s) && t in s.linked
    ensures 1 <= Ahead(now, s, t) < Half
  {
    NotDueAhead(s.arms, s.linked, now, t);
    assert Key(now, s.arms, t) < Half;
  }

  lemma ExpiresNext(now: Tick, t: Tick)
    requires 1 <= Diff(t, now) < Half
    ensures Diff(t, Later(now, 1)) == Diff(t, now) - 1
    ensures Expired(t, Later(now, 1)) <==> Diff(t, now) == 1
  {
    OneCloser(now, t);
    var next := Later(now, 1);
    if Diff(t, next) != 0 { Opposite(t, next); }
  }

  lemma Opposite(a: Tick, b: Tick)
    requires Diff(a, b) != 0
    ensures Diff(b, a) == Modulus - Diff(a, b)
  {
  }

  /** A tick brings a timer left alone one tick closer, and fires it when it is one tick ahead. */
  lemma TickFires(now: Tick, s: State, cfg: Config, t: Id)
    requires Running(now, s) && Positive(cfg) && AloneAt(now, s, TickEvent, cfg, t)
    ensures var (now', s') := Next(now, s, TickEvent, cfg);
            && (t in Fired(now, s, TickEvent, cfg) <==> t in s.linked && Ahead(now, s, t) == 1)
            && (t in Fired(now, s, TickEvent, cfg) ==>
                  (t in s'.linked <==> cfg.periodic(t)) && (cfg.periodic(t) ==> Ahead(now', s', t) == cfg.delay(t)))
            && (t !in Fired(now, s, TickEvent, cfg) ==>
                  (t in s'.linked <==> t in s.linked)
                  && (t in s.linked ==> Ahead(now', s', t) == Ahead(now, s, t) - 1))
  {
    hide Due, Check, Positive, Expired, Diff, Later, Touched, Firing, Inv;
    Rebase(now, s);
    var next := Later(now, 1);
    TickSane(next, cfg);
    CheckFires(next, s, next, cfg);
    CheckSettles(next, s, next, cfg, t);
    FiresUnlessTouched(Due(s.arms, s.linked, next), cfg, t);
    DueIs(s.arms, s.linked, next, t);
    if t in s.linked {
      RunningAhead(now, s, t);
      ExpiresNext(now, At(s.arms, t).timeout);
    }
    Distance(next, cfg.delay(t));
  }

  lemma TickSane(now: Tick, cfg: Config)
    requires Positive(cfg)
    ensures Sane(now, now, cfg) && InWindow(now, now)
  {
  }

  lemma CallLeaves(now: Tick, s: State, e: Event, cfg: Config, t: Id)
    requires Running(now, s) && Positive(cfg) && !e.TickEvent? && AloneAt(now, s, e, cfg, t)
    ensures var (now', s') := Next(now, s, e, cfg);
            now' == now && (t in s'.linked <==> t in s.linked) && Ahead(now', s', t) == Ahead(now, s, t)
  {
    hide Due, Start, Stop, Diff;
    match e
    case StartEvent(u) =>
      StartOthers(s, u, now, cfg.delay(u));
      assert Same(s, Start(s, u, now, cfg.delay(u)), t);
    case StopEvent(u) =>
      StopOthers(now, s, u);
      assert Same(s, Stop(s, u).0, t);
  }

  /** What is left of a count of firings every `period` ticks after the first. */
  lemma OneMore(n: int, period: int)
    requires n >= 0 && period >= 1
    ensures 1 + (if n < period then 0 else 1 + (n - period) / period) == 1 + n / period
  {
    if n < period {
      assert n / period == 0;
    } else {
      assert (n - period) / period == n / period - 1 by { Less(n, period); }
    }
  }

  lemma Less(n: int, period: int)
    requires n >= period >= 1
    ensures (n - period) / period == n / period - 1
  {
    var q, r := n / period, n % period;
    assert n == q * period + r;
    assert (q - 1) * period == q * period - period;
    Division(n - period, q - 1, r, period);
  }

  /**
   Over any run that leaves a timer alone: a timer that does not run never fires; one that is `ahead` ticks away fires
   at no tick before, exactly once from then on if it is a one-shot, and every `delay` ticks if it is periodic.
   */
  lemma {:induction false} FiresEvery(now: Tick, s: State, events: seq<Event>, cfg: Config, t: Id)
    requires Running(now, s) && Positive(cfg) && LeftAlone(now, s, events, cfg, t)
    ensures cfg.delay(t) >= 1
    ensures var n: int, ahead: int := Ticks(events), Ahead(now, s, t);
            Count(now, s, events, cfg, t)
            == if t !in s.linked || n < ahead then 0 else if cfg.periodic(t) then 1 + (n - ahead) / cfg.delay(t) else 1
    decreases |events|
  {
    hide Running, Next, Fired, AloneAt, Ahead;
    if events == [] {
      if t in s.linked { RunningAhead(now, s, t); }
    } else {
      var e, rest := events[0], events[1..];
      NextKeeps(now, s, e, cfg);
      var (now', s') := Next(now, s, e, cfg);
      FiresEvery(now', s', rest, cfg, t);
      if e.TickEvent? {
        TickFires(now, s, cfg, t);
        var n: int := Ticks(rest);
        if t in Fired(now, s, e, cfg) && cfg.periodic(t) { OneMore(n, cfg.delay(t)); }
        if t in s.linked { RunningAhead(now, s, t); }
      } else {
        CallLeaves(now, s, e, cfg, t);
        NotFired(now, s, e, cfg, t);
      }
    }
  }

  lemma NotFired(now: Tick, s: State, e: Event, cfg: Config, t: Id)
    requires Running(now, s) && Positive(cfg) && !e.TickEvent?
    ensures t !in Fired(now, s, e, cfg)
  {
  }

  /** So a timer started with a delay, and then left alone, fires at the tick that many ticks later and not before. */
  lemma FiresOnTime(now: Tick, s: State, events: seq<Event>, cfg: Config, t: Id)
    requires Running(now, s) && Positive(cfg)
    requires var s1 := Start(s, t, now, cfg.delay(t));
             (NextKeeps(now, s, StartEvent(t), cfg); LeftAlone(now, s1, events, cfg, t))
    ensures var s1 := Start(s, t, now, cfg.delay(t));
            var n: int, d: int := Ticks(events), cfg.delay(t);
            && d >= 1
            && (NextKeeps(now, s, StartEvent(t), cfg); Count(now, s1, events, cfg, t))
               == if n < d then 0 else if cfg.periodic(t) then n / d else 1
  {
    hide Inv, Due, Start, LeftAlone, Count, Diff;
    NextKeeps(now, s, StartEvent(t), cfg);
    NoDistance(now);
    StartAnswers(now, s, t, now, cfg.delay(t));
    FiresEvery(now, Start(s, t, now, cfg.delay(t)), events, cfg, t);
    var n: int, d: int := Ticks(events), cfg.delay(t);
    if n >= d { Less(n, d); }
  }

  lemma NoDistance(now: Tick)
    ensures Diff(now, now) == 0
  {
  }
}
