/**
 The skip list of `rt_timer_start` and `rt_timer_check`: `levels` rows of links, the last one holding
 every running timer, changed in place. Its bottom row behaves exactly as the list of module Timer, for any
 number of rows and any height a timer is given; so the search through the rows above it only saves time, and
 what modules Timer and TimerExpiry prove holds of the skip list.
 */
module TimerRows {
  import opened Common
  import opened Timer
  import opened TimerExpiry

  /** `a` is `b` with some elements left out. */
  predicate Sublist(a: seq<Id>, b: seq<Id>)
    decreases |b|
  {
    || a == []
    || (b != [] && (if a[0] == b[0] then Sublist(a[1..], b[1..]) else Sublist(a, b[1..])))
  }

  /** Of two rows in expiry order, one that only has timers of the other is a sublist of it. */
  lemma {:induction false} RowIsSublist(base: Tick, arms: map<Id, Arm>, a: seq<Id>, b: seq<Id>)
    requires Ordered(base, arms, a) && Ordered(base, arms, b) && Within(a, b)
    ensures Sublist(a, b)
    decreases |b|
  {
    hide Key;
    if a != [] {
      assert a[0] in b;
      if a[0] == b[0] {
        forall t | t in a[1..] ensures t in b[1..] {
          var i :| 0 <= i < |a[1..]| && a[1..][i] == t;
          assert Before(base, arms, a[0], a[i + 1]);
          assert a[i + 1] in b && b == [b[0]] + b[1..];
        }
        RowIsSublist(base, arms, a[1..], b[1..]);
      } else {
        forall t | t in a ensures t in b[1..] {
          HeadFirst(base, arms, a, b, t);
        }
        RowIsSublist(base, arms, a, b[1..]);
      }
    }
  }

  lemma HeadFirst(base: Tick, arms: map<Id, Arm>, a: seq<Id>, b: seq<Id>, t: Id)
    requires Ordered(base, arms, a) && Ordered(base, arms, b)
    requires a != [] && a[0] in b && b[0] != a[0] && t in a
    ensures t != b[0]
  {
    hide Key;
    var i :| 0 <= i < |a| && a[i] == t;
    var k :| 0 <= k < |b| && b[k] == a[0];
    assert Before(base, arms, b[0], b[k]);
    assert i > 0 ==> Before(base, arms, a[0], a[i]);
  }

  predicate Within(a: seq<Id>, b: seq<Id>) {
    forall t :: t in a ==> t in b
  }

  /** Every row is in expiry order and every row's timers are on the rows below. */
  ghost predicate Nested(base: Tick, arms: map<Id, Arm>, rows: seq<seq<Id>>) {
    && (forall l :: 0 <= l < |rows| ==> Ordered(base, arms, rows[l]))
    && (forall l, m :: 0 <= l < m < |rows| ==> Within(rows[l], rows[m]))
  }

  lemma SplitIsPosition(base: Tick, arms: map<Id, Arm>, q: seq<Id>, tick: Tick, p: nat)
    requires Windowed(base, arms, q) && Ordered(base, arms, q) && InWindow(base, tick)
    requires Splits(base, arms, q, tick, p)
    ensures p == Position(arms, q, tick)
  {
    hide Key, Diff, Ordered, Position;
    PositionSplits(base, arms, q, tick);
    var r := Position(arms, q, tick);
    var atP := if p < |q| then Key(base, arms, q[p]) else 0;
    var atR := if r < |q| then Key(base, arms, q[r]) else 0;
  }

  function IndexOf(q: seq<Id>, t: Id): (i: nat)
    requires t in q
    ensures i < |q| && q[i] == t
  {
    if q[0] == t then 0 else 1 + IndexOf(q[1..], t)
  }

  /** How many rows a start with the counter at `nr` links: one more for each zero digit, up to all rows. */
  function Height(nr: nat, radix: nat, levels: nat): (h: nat)
    requires radix >= 2 && levels >= 1
    ensures 1 <= h <= levels
    decreases levels
  {
    if levels > 1 && nr % radix == 0 then 1 + Height(nr / radix, radix, levels - 1) else 1
  }

  function Power(radix: nat, k: nat): nat {
    if k == 0 then 1 else radix * Power(radix, k - 1)
  }

  predicate MultipleBy(n: nat, m: nat, d: nat) {
    n == m * d
  }

  ghost predicate Multiple(n: nat, d: nat) {
    exists m: nat :: MultipleBy(n, m, d)
  }

  lemma MultipleOfOne(n: nat)
    ensures Multiple(n, 1)
  {
    assert MultipleBy(n, n, 1);
  }

  lemma MultipleStep(n: nat, radix: nat, d: nat)
    requires radix >= 2
    ensures Multiple(n, radix * d) <==> n % radix == 0 && Multiple(n / radix, d)
  {
    if n % radix == 0 && Multiple(n / radix, d) {
      var m: nat :| MultipleBy(n / radix, m, d);
      assert n == radix * (n / radix) == radix * (m * d) == m * (radix * d);
      assert MultipleBy(n, m, radix * d);
    }
    if Multiple(n, radix * d) {
      var m: nat :| MultipleBy(n, m, radix * d);
      assert n == (m * d) * radix;
      Division(n, m * d, 0, radix);
      assert MultipleBy(n / radix, m, d);
    }
  }

  /** Row by row: row `k` from the bottom is linked exactly when the counter is a multiple of `radix` to the `k`. */
  lemma {:induction false} HeightIs(nr: nat, radix: nat, levels: nat, k: nat)
    requires radix >= 2 && k < levels
    ensures Height(nr, radix, levels) > k <==> Multiple(nr, Power(radix, k))
    decreases k
  {
    hide Multiple;
    if k == 0 {
      MultipleOfOne(nr);
    } else {
      HeightIs(nr / radix, radix, levels - 1, k - 1);
      MultipleStep(nr, radix, Power(radix, k - 1));
    }
  }

  /** The rows with `t` put into the lowest `h` of them. */
  function Linked(rows: seq<seq<Id>>, pos: seq<nat>, t: Id, h: nat): (r: seq<seq<Id>>)
    requires |pos| == |rows| && forall l :: 0 <= l < |rows| ==> pos[l] <= |rows[l]|
  {
    seq(|rows|, l requires 0 <= l < |rows| => if l >= |rows| - h then InsertAt(rows[l], pos[l], t) else rows[l])
  }

  /** The search has passed only timers that time out no later than `tick`. */
  ghost predicate Passed(base: Tick, arms: map<Id, Arm>, q: seq<Id>, tick: Tick, p: nat) {
    p <= |q| && forall i :: 0 <= i < p ==> Key(base, arms, q[i]) <= Diff(tick, base)
  }

  /** Going one row down from a passed timer, everything before it there is passed as well. */
  lemma PassedBelow(base: Tick, arms: map<Id, Arm>, q: seq<Id>, below: seq<Id>, tick: Tick, p: nat)
    requires Passed(base, arms, q, tick, p) && p > 0 && Ordered(base, arms, below) && q[p - 1] in below
    ensures Passed(base, arms, below, tick, IndexOf(below, q[p - 1]) + 1)
  {
    hide Key, Diff;
    var k := IndexOf(below, q[p - 1]);
    forall i | 0 <= i < k + 1 ensures Key(base, arms, below[i]) <= Diff(tick, base) {
      if i < k { assert Before(base, arms, below[i], below[k]); }
    }
  }

  /** The inner search loop: from a passed position, one row is searched exactly as a scan from its head would. */
  method Scan(ghost base: Tick, arms: map<Id, Arm>, q: seq<Id>, tick: Tick, start: nat) returns (p: nat)
    requires Windowed(base, arms, q) && Ordered(base, arms, q) && InWindow(base, tick)
    requires Passed(base, arms, q, tick, start)
    ensures p == Position(arms, q, tick) && Passed(base, arms, q, tick, p)
  {
    hide Diff, Ordered, Position, After;
    p := start;
    while p < |q| && !After(At(arms, q[p]).timeout, tick)
      invariant Passed(base, arms, q, tick, p)
    {
      assert q[p] in q;
      WindowOrder(base, At(arms, q[p]).timeout, tick);
      p := p + 1;
    }
    RestLater(base, arms, q, tick, p);
    SplitIsPosition(base, arms, q, tick, p);
  }

  lemma RestLater(base: Tick, arms: map<Id, Arm>, q: seq<Id>, tick: Tick, p: nat)
    requires Windowed(base, arms, q) && Ordered(base, arms, q) && InWindow(base, tick)
    requires Passed(base, arms, q, tick, p) && (p < |q| ==> After(At(arms, q[p]).timeout, tick))
    ensures Splits(base, arms, q, tick, p)
  {
    hide Diff, After;
    if p < |q| {
      assert q[p] in q;
      WindowOrder(base, At(arms, q[p]).timeout, tick);
      forall i | p <= i < |q| ensures Key(base, arms, q[i]) > Diff(tick, base) {
        if i > p { assert Before(base, arms, q[p], q[i]); }
      }
    }
  }

  /** The nested search: each row starts below the timer where the row above stopped. */
  method FindRowHeads(ghost base: Tick, arms: map<Id, Arm>, rows: seq<seq<Id>>, tick: Tick) returns (pos: seq<nat>)
    requires rows != [] && Nested(base, arms, rows) && Windowed(base, arms, rows[|rows| - 1]) && InWindow(base, tick)
    ensures |pos| == |rows| && forall l :: 0 <= l < |rows| ==> pos[l] == Position(arms, rows[l], tick)
  {
    hide Key, Diff, Position, Passed, Ordered, IndexOf;
    pos := [];
    var p: nat := 0;
    NonePassed(base, arms, rows[0], tick);
    for l := 0 to |rows|
      invariant |pos| == l
      invariant forall k :: 0 <= k < l ==> pos[k] == Position(arms, rows[k], tick)
      invariant l < |rows| ==> Passed(base, arms, rows[l], tick, p)
    {
      assert l < |rows| - 1 ==> Within(rows[l], rows[|rows| - 1]);
      p := Scan(base, arms, rows[l], tick, p);
      pos := pos + [p];
      if l != |rows| - 1 {
        if p > 0 {
          assert rows[l][p - 1] in rows[l] && Within(rows[l], rows[l + 1]);
          PassedBelow(base, arms, rows[l], rows[l + 1], tick, p);
          p := IndexOf(rows[l + 1], rows[l][p - 1]) + 1;
        } else {
          NonePassed(base, arms, rows[l + 1], tick);
        }
      }
    }
  }

  lemma NonePassed(base: Tick, arms: map<Id, Arm>, q: seq<Id>, tick: Tick)
    ensures Passed(base, arms, q, tick, 0)
  {
  }

  lemma LinkedMore(rows: seq<seq<Id>>, pos: seq<nat>, t: Id, n: nat)
    requires n < |rows| == |pos| && forall l :: 0 <= l < |rows| ==> pos[l] <= |rows[l]|
    ensures |Linked(rows, pos, t, n)| == |rows|
    ensures var l := |rows| - 1 - n;
            Linked(rows, pos, t, n)[l := InsertAt(rows[l], pos[l], t)] == Linked(rows, pos, t, n + 1)
  {
    hide InsertAt;
  }

  lemma LinkedNone(rows: seq<seq<Id>>, pos: seq<nat>, t: Id)
    requires |pos| == |rows| && forall l :: 0 <= l < |rows| ==> pos[l] <= |rows[l]|
    ensures Linked(rows, pos, t, 0) == rows
  {
  }

  lemma HeightStep(nr: nat, radix: nat, levels: nat)
    requires radix >= 2 && levels >= 1
    ensures Height(nr, radix, levels)
         == if levels > 1 && nr % radix == 0 then 1 + Height(nr / radix, radix, levels - 1) else 1
  {
  }

  /** The insertion loop: the bottom row always, then upwards while the counter's low digits are zero. */
  method LinkRows(rows: seq<seq<Id>>, pos: seq<nat>, t: Id, nr: nat, radix: nat) returns (r: seq<seq<Id>>)
    requires rows != [] && |pos| == |rows| && radix >= 2
    requires forall l :: 0 <= l < |rows| ==> pos[l] <= |rows[l]|
    ensures r == Linked(rows, pos, t, Height(nr, radix, |rows|))
  {
    hide InsertAt, Linked, Height;
    var levels := |rows|;
    var tst: nat := nr;
    var n := 1;
    LinkedNone(rows, pos, t);
    LinkedMore(rows, pos, t, 0);
    r := rows[levels - 1 := InsertAt(rows[levels - 1], pos[levels - 1], t)];
    while n < levels && tst % radix == 0
      invariant 1 <= n <= levels
      invariant r == Linked(rows, pos, t, n)
      invariant Height(nr, radix, levels) == n - 1 + Height(tst, radix, levels - n + 1)
    {
      LinkedMore(rows, pos, t, n);
      HeightStep(tst, radix, levels - n + 1);
      r := r[levels - 1 - n := InsertAt(rows[levels - 1 - n], pos[levels - 1 - n], t)];
      tst := tst / radix;
      n := n + 1;
    }
    HeightStep(tst, radix, levels - n + 1);
  }

  /** Taking a timer out of every row keeps the rows nested. */
  lemma RemoveNested(base: Tick, arms: map<Id, Arm>, rows: seq<seq<Id>>, rows': seq<seq<Id>>, t: Id)
    requires Nested(base, arms, rows) && |rows'| == |rows|
    requires forall l :: 0 <= l < |rows| ==> rows'[l] == Without(rows[l], {t})
    ensures Nested(base, arms, rows')
  {
    hide Ordered, Without;
    forall l | 0 <= l < |rows| ensures Ordered(base, arms, rows'[l]) {
      WithoutOrdered(base, arms, rows[l], {t});
    }
  }

  /** Linking a timer into the lowest rows, at the scanned position of each, keeps the rows nested. */
  lemma LinkNested(base: Tick, arms: map<Id, Arm>, rows: seq<seq<Id>>, pos: seq<nat>, t: Id, arm: Arm, h: nat)
    requires rows != [] && Nested(base, arms, rows) && Windowed(base, arms, rows[|rows| - 1])
    requires InWindow(base, arm.timeout) && 1 <= h <= |rows|
    requires forall u :: u in rows[|rows| - 1] ==> u != t && At(arms, u).stamp < arm.stamp
    requires |pos| == |rows| && forall l :: 0 <= l < |rows| ==> pos[l] <= |rows[l]|
    requires forall l :: 0 <= l < |rows| ==> pos[l] == Position(arms, rows[l], arm.timeout)
    ensures Nested(base, arms[t := arm], Linked(rows, pos, t, h))
    ensures forall l :: 0 <= l < |rows| ==> (t in Linked(rows, pos, t, h)[l] <==> l >= |rows| - h)
  {
    hide Ordered, Key, Diff, Position, InsertAt;
    var r, arms' := Linked(rows, pos, t, h), arms[t := arm];
    forall l | 0 <= l < |rows|
      ensures Ordered(base, arms', r[l]) && t !in rows[l]
      ensures forall u :: u in r[l] <==> u in rows[l] || (u == t && l >= |rows| - h)
    {
      assert l < |rows| - 1 ==> Within(rows[l], rows[|rows| - 1]);
      forall u | u in rows[l] ensures u in rows[|rows| - 1] && u != t && At(arms, u).stamp < arm.stamp {
        assert u in rows[|rows| - 1];
      }
      LinkOrdered(base, arms, rows[l], t, arm);
      InsertMembers(rows[l], pos[l], t);
    }
  }

  lemma LinkOrdered(base: Tick, arms: map<Id, Arm>, q: seq<Id>, t: Id, arm: Arm)
    requires Ordered(base, arms, q) && Windowed(base, arms, q) && InWindow(base, arm.timeout)
    requires forall u :: u in q ==> u != t && At(arms, u).stamp < arm.stamp
    ensures Ordered(base, arms[t := arm], q)
    ensures Ordered(base, arms[t := arm], InsertAt(q, Position(arms, q, arm.timeout), t))
  {
    hide Key, Diff, Position, InsertAt, Without;
    PositionSplits(base, arms, q, arm.timeout);
    InsertOrdered(base, arms, q, t, arm, Position(arms, q, arm.timeout));
    RearmedOrdered(base, arms, q, t, arm);
  }

  lemma RearmedOrdered(base: Tick, arms: map<Id, Arm>, q: seq<Id>, t: Id, arm: Arm)
    requires Ordered(base, arms, q) && t !in q
    ensures Ordered(base, arms[t := arm], q)
  {
    hide Diff;
    forall i, j | 0 <= i < j < |q| ensures Before(base, arms[t := arm], q[i], q[j]) {
      assert q[i] in q && q[j] in q && Before(base, arms, q[i], q[j]);
    }
  }

  lemma LinkedReady(base: Tick, s: State, t: Id)
    requires Inv(base, s) && t !in s.linked
    ensures Windowed(base, s.arms, s.linked)
    ensures forall u :: u in s.linked ==> u != t && At(s.arms, u).stamp < s.starts
  {
    hide Key;
  }

  class TimerList {
    const levels: nat
    /** RT_TIMER_SKIP_LIST_MASK + 1: two for one bit a level, four for two bits. */
    const radix: nat
    var rows: seq<seq<Id>>
    var arms: map<Id, Arm>
    var activated: set<Id>
    var randomNr: Tick
    var starts: nat

    ghost predicate Valid(base: Tick)
      reads this
    {
      && levels >= 1 && (radix == 2 || radix == 4)
      && |rows| == levels
      && Nested(base, arms, rows)
      && Inv(base, Abs())
      && randomNr == starts % Modulus
    }

    /** The list of the bottom row. */
    ghost function Abs(): State
      reads this
      requires |rows| == levels >= 1
    {
      State(rows[levels - 1], arms, starts, activated)
    }

    constructor (levels: nat, radix: nat)
      requires levels >= 1 && (radix == 2 || radix == 4)
      ensures forall base :: Valid(base)
      ensures Abs() == State([], map[], 0, {})
    {
      this.levels, this.radix := levels, radix;
      rows := seq(levels, i => []);
      arms, activated, randomNr, starts := map[], {}, 0, 0;
    }

    /** `_rt_timer_remove`: takes the timer's link out of every row. */
    method Remove(t: Id)
      requires |rows| == levels
      modifies this`rows
      ensures |rows| == levels && forall l :: 0 <= l < levels ==> rows[l] == Without(old(rows[l]), {t})
    {
      for i := 0 to levels
        invariant |rows| == levels
        invariant forall l :: 0 <= l < i ==> rows[l] == Without(old(rows[l]), {t})
        invariant forall l :: i <= l < levels ==> rows[l] == old(rows[l])
      {
        rows := rows[i := Without(rows[i], {t})];
      }
    }

    /** The first locked region of `rt_timer_start`. */
    method Detach(ghost base: Tick, t: Id)
      requires Valid(base)
      modifies this`rows, this`activated
      ensures Valid(base) && Abs() == Timer.Detach(old(Abs()), t)
    {
      hide Nested, Inv, Without;
      ghost var s0 := Abs();
      Remove(t);
      RemoveNested(base, arms, old(rows), rows, t);
      DetachKeepsInv(base, s0, t);
      activated := activated - {t};
    }

    /** The second one: the timer must not be linked. */
    method LinkTimer(ghost base: Tick, t: Id, timeout: Tick)
      requires Valid(base) && InWindow(base, timeout) && t !in Abs().linked
      modifies this
      ensures Valid(base) && Abs() == Timer.Link(old(Abs()), t, timeout)
      ensures forall l :: 0 <= l < levels ==> (t in rows[l] <==> l >= levels - Height(randomNr, radix, levels))
    {
      hide Nested, Inv, Position, Height;
      ghost var s0 := Abs();
      LinkedReady(base, s0, t);
      var arm := Arm(timeout, starts);
      var pos := FindRowHeads(base, arms, rows, timeout);
      NextCount(starts);
      starts, randomNr := starts + 1, (randomNr + 1) % Modulus;
      LinkNested(base, arms, rows, pos, t, arm, Height(randomNr, radix, levels));
      rows := LinkRows(rows, pos, t, randomNr, radix);
      arms := arms[t := arm];
      activated := activated + {t};
      LinkKeepsInv(base, s0, t, timeout);
    }

    /** `rt_timer_start`, with nothing between its two regions. */
    method Start(ghost base: Tick, t: Id, now: Tick, delay: Delay)
      requires Valid(base) && Diff(now, base) + delay < Half
      modifies this
      ensures Valid(base) && Abs() == Timer.Start(old(Abs()), t, now, delay)
      ensures forall l :: 0 <= l < levels ==> (t in rows[l] <==> l >= levels - Height(randomNr, radix, levels))
    {
      hide Nested, Inv, Position, Height, Later, Timer.Start;
      ghost var s0 := Abs();
      Detach(base, t);
      LaterBy(base, now, delay);
      StartInTwo(s0, t, now, delay);
      LinkTimer(base, t, Later(now, delay));
    }

    /** `rt_timer_stop`. */
    method Stop(ghost base: Tick, t: Id) returns (err: Err)
      requires Valid(base)
      modifies this
      ensures Valid(base) && (Abs(), err) == Timer.Stop(old(Abs()), t)
    {
      hide Nested, Inv, Without;
      ghost var s0 := Abs();
      StopKeepsInv(base, s0, t);
      if t !in activated { return ERROR; }
      Remove(t);
      RemoveNested(base, arms, old(rows), rows, t);
      activated := activated - {t};
      err := EOK;
    }

    /** The head of the bottom row times out next; an empty list never does. */
    method NextTimeout(ghost base: Tick) returns (tick: Tick)
      requires Valid(base)
      ensures Abs().linked == [] ==> tick == 0xffff_ffff
      ensures forall t :: t in Abs().linked ==> Diff(tick, base) <= Key(base, arms, t)
      ensures Abs().linked != [] ==> exists t :: t in Abs().linked && At(arms, t).timeout == tick
    {
      if rows[levels - 1] == [] { return 0xffff_ffff; }
      var head := rows[levels - 1][0];
      assert head in Abs().linked;
      tick := At(arms, head).timeout;
      forall t | t in Abs().linked ensures Diff(tick, base) <= Key(base, arms, t) {
        var i :| 0 <= i < |Abs().linked| && Abs().linked[i] == t;
        if i > 0 { assert Before(base, arms, Abs().linked[0], Abs().linked[i]); }
      }
    }

    /** A timeout function: its starts and stops, in order. */
    method RunCallback(ghost base: Tick, ops: seq<Op>, now: Tick, cfg: Config)
      requires Valid(base) && forall u :: StartOp(u) in ops ==> Ahead(base, now, cfg.delay(u))
      modifies this
      ensures Valid(base) && Abs() == Run(old(Abs()), ops, now, cfg)
    {
      hide Inv, Nested, Timer.Start, Timer.Stop, Key;
      for i := 0 to |ops|
        invariant Valid(base)
        invariant Run(Abs(), ops[i..], now, cfg) == Run(old(Abs()), ops, now, cfg)
      {
        assert ops[i] in ops && ops[i..][0] == ops[i] && ops[i..][1..] == ops[i + 1..];
        match ops[i] {
          case StartOp(u) =>
            assert StartOp(u) in ops;
            Start(base, u, now, cfg.delay(u));
          case StopOp(u) =>
            var _ := Stop(base, u);
        }
      }
    }

    /** One pass of the loop: the head timer fires. */
    method FireHead(ghost base: Tick, now: Tick, cfg: Config) returns (t: Id)
      requires Valid(base) && Sane(base, now, cfg) && HeadDue(Abs(), now)
      modifies this
      ensures Valid(base) && t == old(Abs()).linked[0] && Abs() == Fire(old(Abs()), now, cfg)
    {
      hide Inv, Nested, Timer.Start, Timer.Stop, Key, Run;
      ghost var s0 := Abs();
      t := rows[levels - 1][0];
      FireKeeps(base, s0, now, cfg);
      HeadUnlinked(base, s0, now);
      Remove(t);
      RemoveNested(base, arms, old(rows), rows, t);
      RunCallback(base, cfg.callback(t), now, cfg);
      ghost var s2 := Abs();
      if cfg.periodic(t) && t in activated {
        RestartIsStart(s2, t, now, cfg.delay(t));
        Start(base, t, now, cfg.delay(t));
      } else {
        activated := activated - {t};
      }
    }

    /** `rt_timer_check`: the timers whose callbacks ran are returned in order. */
    method Check(ghost base: Tick, now: Tick, cfg: Config) returns (fired: seq<Id>)
      requires Valid(base) && Sane(base, now, cfg)
      modifies this
      ensures Valid(base) && (Abs(), fired) == TimerExpiry.Check(base, old(Abs()), now, cfg)
    {
      hide Inv, Nested, Fire, Due, Sane;
      fired := [];
      ghost var whole := TimerExpiry.Check(base, Abs(), now, cfg);
      assert whole.1 == [] + whole.1;
      while rows[levels - 1] != [] && Expired(At(arms, rows[levels - 1][0]).timeout, now)
        invariant Valid(base)
        invariant whole.0 == TimerExpiry.Check(base, Abs(), now, cfg).0
        invariant whole.1 == fired + TimerExpiry.Check(base, Abs(), now, cfg).1
        decreases |Due(arms, Abs().linked, now)|
      {
        ghost var s := Abs();
        FireKeeps(base, s, now, cfg);
        var t := FireHead(base, now, cfg);
        ghost var rest := TimerExpiry.Check(base, Abs(), now, cfg);
        assert TimerExpiry.Check(base, s, now, cfg) == (rest.0, [t] + rest.1);
        assert fired + ([t] + rest.1) == (fired + [t]) + rest.1;
        fired := fired + [t];
      }
      assert fired + [] == fired;
    }
  }

  lemma NextCount(n: nat)
    ensures (n + 1) % Modulus == (n % Modulus + 1) % Modulus
  {
  }
}
