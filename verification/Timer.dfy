/**
 Hard timers on values: the sorted list of running timers under 32-bit tick arithmetic, starting and
 stopping, and the expiry loop of `rt_timer_check` with callbacks that start and stop timers.
 */
module Timer {
  import opened Common

  type Id = nat
  type Tick = x: int | 0 <= x < 0x1_0000_0000

  const Modulus: int := 0x1_0000_0000
  /** RT_TICK_MAX / 2 */
  const Half: int := 0x7fff_ffff

  /** Unsigned 32-bit difference of two ticks. */
  function Diff(a: int, b: int): (d: int)
    ensures 0 <= d < Modulus
  {
    (a - b) % Modulus
  }

  /** The test that ends the search: `t` times out strictly after `tick`. */
  predicate After(t: int, tick: int) {
    Diff(t, tick) != 0 && Diff(t, tick) < Half
  }

  /** `t` has expired at `now`. */
  predicate Expired(t: int, now: int) {
    Diff(now, t) < Half
  }

  /** A tick at most RT_TICK_MAX / 2 ahead of `base`. */
  predicate InWindow(base: Tick, t: int) {
    Diff(t, base) < Half
  }

  /** Inside one window, wrap-around comparison is comparison of the distances from its base. */
  lemma WindowOrder(base: Tick, a: int, b: int)
    requires InWindow(base, a) && InWindow(base, b)
    ensures After(a, b) <==> Diff(a, base) > Diff(b, base)
    ensures Expired(a, b) <==> Diff(a, base) <= Diff(b, base)
  {
    var x, y := Diff(a, base), Diff(b, base);
    DiffOfDiffs(a, b, base);
    DiffOfDiffs(b, a, base);
    if x >= y { assert Diff(a, b) == x - y; }
    if x < y { assert Diff(a, b) == x - y + Modulus; }
    if y >= x { assert Diff(b, a) == y - x; }
    if y < x { assert Diff(b, a) == y - x + Modulus; }
  }

  lemma DiffOfDiffs(a: int, b: int, base: Tick)
    ensures Diff(a, b) == (Diff(a, base) - Diff(b, base)) % Modulus
  {
    var p, q := (a - base) / Modulus, (b - base) / Modulus;
    assert a - b == Diff(a, base) - Diff(b, base) + (p - q) * Modulus;
    ModShift(Diff(a, base) - Diff(b, base), p - q);
  }

  lemma ModShift(x: int, k: int)
    ensures (x + k * Modulus) % Modulus == x % Modulus
  {
  }

  type Delay = x: int | 0 <= x < 0x7fff_ffff

  function Later(now: Tick, delay: Delay): Tick {
    (now + delay) % Modulus
  }

  /** A timer started now, and not past the end of the window, is later than now by its delay. */
  lemma LaterBy(base: Tick, now: Tick, delay: Delay)
    requires Diff(now, base) + delay < Half
    ensures Diff(Later(now, delay), base) == Diff(now, base) + delay
  {
    var t := Later(now, delay);
    var k := (now + delay) / Modulus;
    assert t - base == (now + delay - base) + (-k) * Modulus;
    ModShift(now + delay - base, -k);
    var j := (now - base) / Modulus;
    assert now + delay - base == Diff(now, base) + delay + j * Modulus;
    ModShift(Diff(now, base) + delay, j);
  }

  // ---- The sorted list ----

  /** What a start writes into a timer: when it times out, and how many starts went before it. */
  datatype Arm = Arm(timeout: Tick, stamp: nat)

  /** A timer never started still has the timeout tick 0 that its initialisation wrote. */
  function At(arms: map<Id, Arm>, t: Id): Arm {
    if t in arms then arms[t] else Arm(0, 0)
  }

  /** How far ahead of the window's base a timer times out. */
  function Key(base: Tick, arms: map<Id, Arm>, t: Id): int {
    Diff(At(arms, t).timeout, base)
  }

  /** The order of expiry: by timeout, and for equal timeouts by the order of the starts. */
  ghost predicate Before(base: Tick, arms: map<Id, Arm>, t: Id, u: Id) {
    || Key(base, arms, t) < Key(base, arms, u)
    || (Key(base, arms, t) == Key(base, arms, u) && At(arms, t).stamp < At(arms, u).stamp)
  }

  ghost predicate Ordered(base: Tick, arms: map<Id, Arm>, q: seq<Id>) {
    forall i, j :: 0 <= i < j < |q| ==> Before(base, arms, q[i], q[j])
  }

  ghost predicate Windowed(base: Tick, arms: map<Id, Arm>, q: seq<Id>) {
    forall t :: t in q ==> Key(base, arms, t) < Half
  }

  /** The position a linear scan finds: before the first timer that times out after `tick`. */
  function Position(arms: map<Id, Arm>, q: seq<Id>, tick: Tick): (p: nat)
    ensures p <= |q|
    decreases |q|
  {
    if q == [] || After(At(arms, q[0]).timeout, tick) then 0 else 1 + Position(arms, q[1..], tick)
  }

  /** `p` splits `q` into the timers that time out no later than `tick` and those that time out later. */
  ghost predicate Splits(base: Tick, arms: map<Id, Arm>, q: seq<Id>, tick: Tick, p: nat) {
    && p <= |q|
    && (forall i :: 0 <= i < p ==> Key(base, arms, q[i]) <= Diff(tick, base))
    && (forall i :: p <= i < |q| ==> Key(base, arms, q[i]) > Diff(tick, base))
  }

  /** The scan passes exactly the timers that time out no later than `tick`, the ties included. */
  lemma {:induction false} PositionSplits(base: Tick, arms: map<Id, Arm>, q: seq<Id>, tick: Tick)
    requires Windowed(base, arms, q) && Ordered(base, arms, q) && InWindow(base, tick)
    ensures Splits(base, arms, q, tick, Position(arms, q, tick))
    decreases |q|
  {
    hide Diff, After;
    if q != [] {
      assert q[0] in q;
      WindowOrder(base, At(arms, q[0]).timeout, tick);
      PositionSplits(base, arms, q[1..], tick);
    }
  }

  /** Insertion there keeps the expiry order: the new timer goes behind every earlier or equal timeout. */
  lemma InsertOrdered(base: Tick, arms: map<Id, Arm>, q: seq<Id>, t: Id, arm: Arm, p: nat)
    requires Ordered(base, arms, q) && t !in q && Splits(base, arms, q, arm.timeout, p)
    requires forall u :: u in q ==> At(arms, u).stamp < arm.stamp
    ensures Ordered(base, arms[t := arm], InsertAt(q, p, t))
  {
    hide Diff;
    var arms', r := arms[t := arm], InsertAt(q, p, t);
    forall i, j | 0 <= i < j < |r| ensures Before(base, arms', r[i], r[j]) {
      if i != p { var u := q[if i < p then i else i - 1]; assert u in q && r[i] == u; }
      if j != p { var u := q[if j < p then j else j - 1]; assert u in q && r[j] == u; }
    }
  }

  /** `q` without the timers in `gone`. */
  function Without(q: seq<Id>, gone: set<Id>): (r: seq<Id>)
    ensures |r| <= |q|
    ensures forall u :: u in r <==> u in q && u !in gone
  {
    if q == [] then [] else if q[0] in gone then Without(q[1..], gone) else [q[0]] + Without(q[1..], gone)
  }

  lemma {:induction false} WithoutOrdered(base: Tick, arms: map<Id, Arm>, q: seq<Id>, gone: set<Id>)
    requires Ordered(base, arms, q)
    ensures Ordered(base, arms, Without(q, gone))
  {
    hide Before;
    if q != [] {
      var rest := q[1..];
      WithoutOrdered(base, arms, rest, gone);
      var r := Without(rest, gone);
      forall j | 0 <= j < |r| ensures Before(base, arms, q[0], r[j]) {
        assert r[j] in rest;
        var k :| 0 <= k < |rest| && rest[k] == r[j];
        assert q[k + 1] == r[j];
      }
    }
  }

  lemma {:induction false} WithoutNone(q: seq<Id>, gone: set<Id>)
    requires forall u :: u in q ==> u !in gone
    ensures Without(q, gone) == q
  {
    if q != [] {
      assert q[0] in q;
      WithoutNone(q[1..], gone);
    }
  }

  lemma {:induction false} WithoutTwice(q: seq<Id>, a: set<Id>, b: set<Id>)
    ensures Without(Without(q, a), b) == Without(q, a + b)
  {
    if q != [] {
      WithoutTwice(q[1..], a, b);
      if q[0] !in a {
        assert Without(q, a)[1..] == Without(q[1..], a);
      }
    }
  }

  lemma {:induction false} WithoutSplit(q: seq<Id>, r: seq<Id>, gone: set<Id>)
    ensures Without(q + r, gone) == Without(q, gone) + Without(r, gone)
  {
    if q == [] {
      assert q + r == r;
    } else {
      WithoutSplit(q[1..], r, gone);
      TailOfJoin(q, r);
      ConsAssoc(q[0], Without(q[1..], gone), Without(r, gone));
    }
  }

  // ---- Starting and stopping ----

  datatype State = State(linked: seq<Id>, arms: map<Id, Arm>, starts: nat, activated: set<Id>)

  /** Running timers are in expiry order, in the window, activated, and were started before now. */
  ghost predicate Inv(base: Tick, s: State) {
    && Ordered(base, s.arms, s.linked)
    && Windowed(base, s.arms, s.linked)
    && (forall t :: t in s.linked ==> At(s.arms, t).stamp < s.starts && t in s.activated)
  }

  /** `rt_timer_start`: unlink, set the timeout, link behind every timer that times out no later. */
  function Start(s: State, t: Id, now: Tick, delay: Delay): State {
    var arm := Arm(Later(now, delay), s.starts);
    var rest := Without(s.linked, {t});
    State(InsertAt(rest, Position(s.arms, rest, arm.timeout), t), s.arms[t := arm], s.starts + 1, s.activated + {t})
  }

  /** `rt_timer_stop`: refused for a timer that is not activated. */
  function Stop(s: State, t: Id): (State, Err) {
    if t !in s.activated then (s, ERROR)
    else (s.(linked := Without(s.linked, {t}), activated := s.activated - {t}), EOK)
  }

  lemma StopKeepsInv(base: Tick, s: State, t: Id)
    requires Inv(base, s)
    ensures Inv(base, Stop(s, t).0) && Stop(s, t).0.linked == Without(s.linked, {t})
  {
    hide Ordered, Key;
    WithoutOrdered(base, s.arms, s.linked, {t});
    if t !in s.activated { WithoutNone(s.linked, {t}); }
  }

  /** A start keeps the list in expiry order, with the started timer after every equal timeout. */
  lemma {:induction false} StartKeepsInv(base: Tick, s: State, t: Id, now: Tick, delay: Delay)
    requires Inv(base, s) && Diff(now, base) + delay < Half
    ensures Inv(base, Start(s, t, now, delay)) && t in Start(s, t, now, delay).linked
    ensures Without(Start(s, t, now, delay).linked, {t}) == Without(s.linked, {t})
  {
    hide Diff, Later, Before, After, Without, InsertAt, Splits, Position;
    var arm := Arm(Later(now, delay), s.starts);
    var rest := Without(s.linked, {t});
    var p := Position(s.arms, rest, arm.timeout);
    LaterBy(base, now, delay);
    WithoutOrdered(base, s.arms, s.linked, {t});
    PositionSplits(base, s.arms, rest, arm.timeout);
    InsertOrdered(base, s.arms, rest, t, arm, p);
    InsertMembers(rest, p, t);
  }

  // ---- The locked regions of starting and stopping ----

  /** The first region of `rt_timer_start`: the timer is unlinked and not activated. */
  function Detach(s: State, t: Id): State {
    s.(linked := Without(s.linked, {t}), activated := s.activated - {t})
  }

  /** The second region, with the timeout computed in between: the timer is linked and activated. */
  function Link(s: State, t: Id, timeout: Tick): State {
    State(InsertAt(s.linked, Position(s.arms, s.linked, timeout), t), s.arms[t := Arm(timeout, s.starts)], s.starts + 1,
          s.activated + {t})
  }

  lemma StartInTwo(s: State, t: Id, now: Tick, delay: Delay)
    ensures Start(s, t, now, delay) == Link(Detach(s, t), t, Later(now, delay))
  {
    assert s.activated - {t} + {t} == s.activated + {t};
  }

  lemma DetachKeepsInv(base: Tick, s: State, t: Id)
    requires Inv(base, s)
    ensures Inv(base, Detach(s, t)) && Inv(base, s.(linked := Without(s.linked, {t})))
  {
    hide Ordered, Key;
    WithoutOrdered(base, s.arms, s.linked, {t});
  }

  /** Linking keeps the list in order exactly if the timer is not linked already. */
  lemma {:induction false} LinkKeepsInv(base: Tick, s: State, t: Id, timeout: Tick)
    requires Inv(base, s) && InWindow(base, timeout)
    ensures Inv(base, Link(s, t, timeout)) <==> t !in s.linked
  {
    hide Diff, Before, After, Without, InsertAt, Splits, Position;
    var p := Position(s.arms, s.linked, timeout);
    var arm := Arm(timeout, s.starts);
    if t in s.linked {
      LinkedTwice(base, s.arms[t := arm], s.linked, p, t);
    } else {
      PositionSplits(base, s.arms, s.linked, timeout);
      InsertOrdered(base, s.arms, s.linked, t, arm, p);
      InsertMembers(s.linked, p, t);
    }
  }

  lemma LinkedTwice(base: Tick, arms: map<Id, Arm>, q: seq<Id>, p: nat, t: Id)
    requires t in q && p <= |q|
    ensures !Ordered(base, arms, InsertAt(q, p, t))
  {
    var i :| 0 <= i < |q| && q[i] == t;
    var r := InsertAt(q, p, t);
    if i < p {
      assert r[i] == t && r[p] == t && !Before(base, arms, r[i], r[p]);
    } else {
      assert r[p] == t && r[i + 1] == t && !Before(base, arms, r[p], r[i + 1]);
    }
  }

  lemma {:induction false} WithoutInserted(q: seq<Id>, p: nat, t: Id, gone: set<Id>)
    requires p <= |q| && t in gone
    ensures Without(InsertAt(q, p, t), gone) == Without(q, gone)
  {
    var r := [t] + q[p..];
    assert r[1..] == q[p..] && Without(r, gone) == Without(q[p..], gone);
    hide Without;
    assert InsertAt(q, p, t) == q[..p] + r;
    WithoutSplit(q[..p], r, gone);
    WithoutSplit(q[..p], q[p..], gone);
    assert q == q[..p] + q[p..];
  }

  lemma InsertMembers(q: seq<Id>, p: nat, t: Id)
    requires p <= |q| && t !in q
    ensures forall u :: u in InsertAt(q, p, t) <==> u in q || u == t
    ensures Without(InsertAt(q, p, t), {t}) == q
  {
    hide Without;
    WithoutInserted(q, p, t, {t});
    WithoutNone(q, {t});
    assert q == q[..p] + q[p..];
    forall u ensures u in InsertAt(q, p, t) <==> u in q || u == t {
      assert u in q <==> u in q[..p] || u in q[p..];
    }
  }
}
