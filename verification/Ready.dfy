/**
 The ready queues of scheduler.c and the bitmap that finds the most urgent one: one word of bits for up to 32
 priorities, a word of groups over a table of bytes for up to 256.
 */
module Ready {
  import opened Common
  import opened Waiting
  import opened Ffs

  function Queue(queues: seq<seq<Tid>>, p: nat): seq<Tid> {
    if p < |queues| then queues[p] else []
  }

  /** One level: bit `p` is set exactly if queue `p` is not empty. */
  ghost predicate OneLevel(queues: seq<seq<Tid>>, group: nat) {
    group < Pow2(32) && forall p: nat :: p < 32 ==> BitRight(queues, group, p)
  }

  predicate BitRight(queues: seq<seq<Tid>>, group: nat, p: nat) {
    HasBit(group, p) <==> Queue(queues, p) != []
  }

  /** Two levels: byte `n` has a bit for each queue from `8 n` on, and bit `n` of the group says that it is not zero. */
  ghost predicate TwoLevel(queues: seq<seq<Tid>>, group: nat, table: seq<nat>) {
    && group < Pow2(32) && |table| == 32
    && (forall n: nat :: n < 32 ==> GroupRight(group, table, n))
    && (forall p: nat :: p < 256 ==> ByteRight(queues, table, p))
  }

  predicate GroupRight(group: nat, table: seq<nat>, n: nat)
    requires n < |table|
  {
    table[n] < Pow2(8) && (HasBit(group, n) <==> table[n] != 0)
  }

  predicate ByteRight(queues: seq<seq<Tid>>, table: seq<nat>, p: nat)
    requires |table| == 32 && p < 256
  {
    HasBit(table[p / 8], p % 8) <==> Queue(queues, p) != []
  }

  /** Queue `p` is the most urgent one with a thread in it. */
  ghost predicate MostUrgent(queues: seq<seq<Tid>>, p: nat) {
    Queue(queues, p) != [] && forall k: nat :: k < p ==> Queue(queues, k) == []
  }

  lemma Lookup1(queues: seq<seq<Tid>>, group: Word, p: nat)
    requires OneLevel(queues, group) && p < 32 && Queue(queues, p) != []
    ensures FindFirstSet(group) >= 1 && MostUrgent(queues, FindFirstSet(group) - 1)
  {
    hide FindFirstSet, LowestBit, HasBit, Pow2;
    assert BitRight(queues, group, p);
    FirstSetIsLowest(group);
    NoBitInZero(group, p);
    var r := FindFirstSet(group) - 1;
    LowestIsLowest(group, r);
    assert BitRight(queues, group, r);
    forall k: nat | k < r ensures Queue(queues, k) == [] {
      assert BitRight(queues, group, k);
    }
  }

  lemma NoBitInZero(v: nat, p: nat)
    requires HasBit(v, p)
    ensures v != 0
  {
    if v == 0 { ZeroBit(p); }
  }

  lemma Lookup2(queues: seq<seq<Tid>>, group: Word, table: seq<nat>, p: nat)
    requires TwoLevel(queues, group, table) && p < 256 && Queue(queues, p) != []
    ensures var number := FindFirstSet(group) - 1;
            && 0 <= number < 32 && table[number] < 256
            && FindFirstSet(table[number]) >= 1
            && MostUrgent(queues, number * 8 + FindFirstSet(table[number]) - 1)
  {
    hide FindFirstSet, LowestBit, HasBit;
    assert Pow2(8) == 256;
    assert ByteRight(queues, table, p);
    NoBitInZero(table[p / 8], p % 8);
    assert GroupRight(group, table, p / 8);
    NoBitInZero(group, p / 8);
    FirstSetIsLowest(group);
    var number := FindFirstSet(group) - 1;
    LowestIsLowest(group, number);
    assert GroupRight(group, table, number);
    FirstSetIsLowest(table[number]);
    var low := FindFirstSet(table[number]) - 1;
    LowestIsLowest(table[number], low);
    LowBelow8(table[number], low);
    var r := number * 8 + low;
    assert ByteRight(queues, table, r);
    forall k: nat | k < r ensures Queue(queues, k) == [] {
      assert ByteRight(queues, table, k);
      assert GroupRight(group, table, k / 8);
      if k / 8 < number { ZeroBit(k % 8); }
    }
  }

  lemma LowBelow8(v: nat, i: nat)
    requires v < 256 && HasBit(v, i)
    ensures i < 8
  {
    if i >= 8 { HighBit(v, 8, i); assert false; }
  }

  lemma {:induction false} HighBit(v: nat, n: nat, i: nat)
    requires v < Pow2(n) && i >= n
    ensures !HasBit(v, i)
  {
    if n == 0 { ZeroBit(i); } else { HighBit(v / 2, n - 1, i - 1); }
  }

  // ---- Linking and unlinking a thread ----

  function Refill(queues: seq<seq<Tid>>, p: nat, q: seq<Tid>): seq<seq<Tid>>
    requires p < |queues|
  {
    queues[p := q]
  }

  /** After queue `p` became `q`, one bit restores the one-level map. */
  lemma OneLevelUpdate(queues: seq<seq<Tid>>, group: nat, p: nat, q: seq<Tid>)
    requires OneLevel(queues, group) && p < |queues| <= 32
    ensures OneLevel(Refill(queues, p, q), if q == [] then ClearBit(group, p) else SetBit(group, p))
  {
    hide SetBit, ClearBit, Pow2, HasBit;
    var group' := if q == [] then ClearBit(group, p) else SetBit(group, p);
    BitsStayBelow(group, p, 32);
    forall k: nat | k < 32 ensures BitRight(Refill(queues, p, q), group', k) {
      SetBitAt(group, p, k);
      ClearBitAt(group, p, k);
      assert BitRight(queues, group, k);
    }
  }

  /** After queue `p` became `q`, one bit of one byte, and with it one bit of the group, restore the two-level map. */
  lemma TwoLevelUpdate(queues: seq<seq<Tid>>, group: nat, table: seq<nat>, p: nat, q: seq<Tid>)
    requires TwoLevel(queues, group, table) && p < |queues| <= 256
    ensures var n, b := p / 8, p % 8;
            var byte := if q == [] then ClearBit(table[n], b) else SetBit(table[n], b);
            TwoLevel(Refill(queues, p, q), if byte == 0 then ClearBit(group, n) else SetBit(group, n), table[n := byte])
  {
    hide SetBit, ClearBit, Pow2, HasBit;
    var n, b := p / 8, p % 8;
    var byte := if q == [] then ClearBit(table[n], b) else SetBit(table[n], b);
    var group' := if byte == 0 then ClearBit(group, n) else SetBit(group, n);
    assert GroupRight(group, table, n);
    BitsStayBelow(group, n, 32);
    BitsStayBelow(table[n], b, 8);
    var table', queues' := table[n := byte], Refill(queues, p, q);
    forall k: nat | k < 32 ensures GroupRight(group', table', k) {
      SetBitAt(group, n, k);
      ClearBitAt(group, n, k);
      assert GroupRight(group, table, k);
    }
    forall k: nat | k < 256 ensures ByteRight(queues', table', k) {
      SetBitAt(table[n], b, k % 8);
      ClearBitAt(table[n], b, k % 8);
      assert ByteRight(queues, table, k);
    }
  }

  lemma SetKeepsByte(v: nat, i: nat)
    ensures SetBit(v, i) != 0
  {
    SetBitAt(v, i, i);
    NoBitInZero(SetBit(v, i), i);
  }

  /** The fields of a thread that the scheduler reads; the masks are written at startup and with the priority. */
  datatype Sched = Sched(prio: nat, number: nat, high: nat)

  ghost predicate HomedIn(queues: seq<seq<Tid>>, threads: map<Tid, Sched>) {
    forall p: nat, t: Tid :: t in Queue(queues, p) ==> t in threads && threads[t].prio == p
  }

  /** A ready thread that changes its priority is at home in its new queue, and only there. */
  lemma MoveHome(queues: seq<seq<Tid>>, threads: map<Tid, Sched>, t: Tid, th: Sched)
    requires HomedIn(queues, threads) && t in threads && threads[t].prio < |queues| && th.prio < |queues|
    requires NoDup(queues[threads[t].prio])
    ensures var q := Refill(queues, threads[t].prio, Remove(queues[threads[t].prio], t));
            HomedIn(Refill(q, th.prio, q[th.prio] + [t]), threads[t := th])
  {
    var from := threads[t].prio;
    RemoveMembers(queues[from], t);
    var q := Refill(queues, from, Remove(queues[from], t));
    var r := Refill(q, th.prio, q[th.prio] + [t]);
    forall p: nat, u: Tid | u in Queue(q, p) ensures u != t && u in Queue(queues, p) {
      assert p != from ==> Queue(q, p) == Queue(queues, p);
    }
    forall p: nat, u: Tid | u in Queue(r, p) ensures u in threads[t := th] && threads[t := th][u].prio == p {
      assert u in Queue(q, p) || (p == th.prio && u == t);
    }
  }

  class Scheduler {
    /** RT_THREAD_PRIORITY_MAX */
    const max: nat
    var queues: seq<seq<Tid>>
    var group: Word
    var table: seq<nat>
    var threads: map<Tid, Sched>
    var current: Option<Tid>
    var lockNest: int

    ghost predicate Valid()
      reads this
    {
      && 1 <= max <= 256 && |queues| == max
      && (if max <= 32 then OneLevel(queues, group) else TwoLevel(queues, group, table))
    }

    /** The masks of a started thread belong to its priority. */
    predicate Started(t: Tid)
      reads this
    {
      && t in threads && threads[t].prio < max
      && (if max <= 32 then threads[t].number == threads[t].prio
          else threads[t].number == threads[t].prio / 8 && threads[t].high == threads[t].prio % 8)
    }

    /** `rt_system_scheduler_init`. */
    constructor (max: nat)
      requires 1 <= max <= 256
      ensures Valid() && this.max == max && queues == seq(max, i => []) && threads == map[] && lockNest == 0
    {
      this.max := max;
      queues := seq(max, i => []);
      group := 0;
      table := seq(32, i => 0);
      threads := map[];
      current := None;
      lockNest := 0;
      new;
      NothingReady();
    }

    lemma NothingReady()
      requires |queues| == max <= 256 && (forall p :: 0 <= p < max ==> queues[p] == []) && group == 0
      requires |table| == 32 && forall n :: 0 <= n < 32 ==> table[n] == 0
      ensures OneLevel(queues, group) && TwoLevel(queues, group, table)
    {
      Pow2Values();
      hide Pow2;
      forall p: nat | p < 32 ensures BitRight(queues, group, p) {
        ZeroBit(p);
      }
      forall n: nat | n < 32 ensures GroupRight(group, table, n) {
        ZeroBit(n);
      }
      forall p: nat | p < 256 ensures ByteRight(queues, table, p) {
        ZeroBit(p % 8);
      }
    }

    /** The priority attribute, computed in `rt_thread_startup` and again when the priority changes. */
    method SetPriority(t: Tid, p: nat)
      requires p < max
      modifies this`threads
      ensures Started(t) && threads == old(threads)[t := threads[t]] && threads[t].prio == p
    {
      threads := threads[t := if max <= 32 then Sched(p, p, 0) else Sched(p, p / 8, p % 8)];
    }

    /** `rt_schedule_insert_thread`. */
    method Insert(t: Tid)
      requires Valid() && Started(t)
      modifies this`queues, this`group, this`table
      ensures Valid() && queues == Refill(old(queues), threads[t].prio, old(queues)[threads[t].prio] + [t])
    {
      hide OneLevel, TwoLevel, SetBit, ClearBit;
      var th := threads[t];
      var q := queues[th.prio] + [t];
      if max > 32 {
        TwoLevelUpdate(queues, group, table, th.prio, q);
        ByteBound();
        SetKeepsByte(table[th.number], th.high);
        table := table[th.number := SetBit(table[th.number], th.high)];
      } else {
        OneLevelUpdate(queues, group, th.prio, q);
      }
      queues := queues[th.prio := q];
      GroupFits(th.number);
      group := SetBit(group, th.number);
    }

    lemma ByteBound()
      requires Valid() && max > 32
      ensures |table| == 32
    {
    }

    lemma GroupFits(n: nat)
      requires n < 32
      ensures SetBit(group, n) < 0x1_0000_0000 && ClearBit(group, n) < 0x1_0000_0000
    {
      Pow2Values();
      BitsStayBelow(group, n, 32);
    }

    /** `rt_schedule_remove_thread` of a thread in its ready queue. */
    method Unlink(t: Tid)
      requires Valid() && Started(t) && t in queues[threads[t].prio]
      modifies this`queues, this`group, this`table
      ensures Valid() && queues == Refill(old(queues), threads[t].prio, Remove(old(queues)[threads[t].prio], t))
    {
      hide OneLevel, TwoLevel, SetBit, ClearBit;
      var th := threads[t];
      var q := Remove(queues[th.prio], t);
      ghost var queues0, group0, table0 := queues, group, table;
      WasSet(th.prio);
      queues := queues[th.prio := q];
      GroupFits(th.number);
      if max > 32 {
        TwoLevelUpdate(queues0, group0, table0, th.prio, q);
        assert table0[th.number := table0[th.number]] == table0;
      } else {
        OneLevelUpdate(queues0, group0, th.prio, q);
      }
      if q == [] {
        if max > 32 {
          table := table[th.number := ClearBit(table[th.number], th.high)];
          if table[th.number] == 0 {
            group := ClearBit(group, th.number);
          }
        } else {
          group := ClearBit(group, th.number);
        }
      }
    }

    /** A queue with a thread in it has its bits set already. */
    lemma WasSet(p: nat)
      requires Valid() && p < max && queues[p] != []
      ensures max <= 32 ==> SetBit(group, p) == group
      ensures max > 32 ==> |table| == 32 && SetBit(table[p / 8], p % 8) == table[p / 8] && SetBit(group, p / 8) == group
      ensures max > 32 ==> table[p / 8] != 0
    {
      hide HasBit;
      if max <= 32 {
        assert BitRight(queues, group, p);
        SetAgain(group, p);
      } else {
        assert ByteRight(queues, table, p) && GroupRight(group, table, p / 8);
        NoBitInZero(table[p / 8], p % 8);
        SetAgain(table[p / 8], p % 8);
        SetAgain(group, p / 8);
      }
    }
  
    /** Every queued thread is started and in the queue of its priority. */
    ghost predicate Homed()
      reads this`queues, this`threads
    {
      HomedIn(queues, threads)
    }

    /** The look-up of the most urgent priority. */
    method Highest() returns (p: nat)
      requires Valid() && exists k: nat :: Queue(queues, k) != []
      ensures MostUrgent(queues, p) && p < max
    {
      hide OneLevel, TwoLevel, FindFirstSet;
      ghost var k: nat :| Queue(queues, k) != [];
      if max > 32 {
        TableShape();
        Lookup2(queues, group, table, k);
        var number := FindFirstSet(group) - 1;
        p := number * 8 + FindFirstSet(table[number]) - 1;
      } else {
        Lookup1(queues, group, k);
        p := FindFirstSet(group) - 1;
      }
    }

    lemma TableShape()
      requires Valid() && max > 32
      ensures |table| == 32
    {
    }

    /** `rt_schedule`: unlocked, it makes the head of the most urgent queue the current thread. */
    method Schedule()
      requires Valid() && Homed() && exists k: nat :: Queue(queues, k) != []
      modifies this`current
      ensures lockNest != 0 ==> current == old(current)
      ensures lockNest == 0 ==> exists p: nat :: MostUrgent(queues, p) && current == Some(Queue(queues, p)[0])
      ensures lockNest == 0 ==> current.Some? && current.value in threads
                                && forall p: nat, u: Tid :: u in Queue(queues, p)
                                     ==> threads[current.value].prio <= threads[u].prio
    {
      if lockNest == 0 {
        var p := Highest();
        var to := queues[p][0];
        assert to in Queue(queues, p);
        if current != Some(to) {
          current := Some(to);
        }
        assert MostUrgent(queues, p) && current == Some(Queue(queues, p)[0]);
      }
    }

    /** RT_THREAD_CTRL_CHANGE_PRIORITY of a ready thread: it moves to the end of its new queue. */
    method ChangePriority(t: Tid, p: nat)
      requires Valid() && Homed() && p < max && Started(t) && t in queues[threads[t].prio]
      requires forall k :: 0 <= k < max ==> NoDup(queues[k])
      modifies this`queues, this`group, this`table, this`threads
      ensures Valid() && Homed() && Started(t) && threads[t].prio == p
      ensures var q := Refill(old(queues), old(threads[t].prio), Remove(old(queues)[old(threads[t].prio)], t));
              queues == Refill(q, p, q[p] + [t])
    {
      hide OneLevel, TwoLevel;
      ghost var queues0, threads0 := queues, threads;
      Unlink(t);
      SetPriority(t, p);
      MoveHome(queues0, threads0, t, threads[t]);
      Insert(t);
    }

    /** `rt_enter_critical`: the scheduler is locked, and the exit that follows puts the counter back. */
    method EnterCritical()
      modifies this`lockNest
      ensures lockNest == NestUp(old(lockNest))
      ensures 0 <= old(lockNest) <= 0x7fff ==> lockNest != 0 && NestDown(lockNest) == old(lockNest)
    {
      lockNest := NestUp(lockNest);
    }

    /** `rt_exit_critical`: the last exit schedules. */
    method ExitCritical()
      requires Valid() && Homed() && exists k: nat :: Queue(queues, k) != []
      modifies this`lockNest, this`current
      ensures lockNest == NestDown(old(lockNest))
      ensures lockNest != 0 ==> current == old(current)
      ensures lockNest == 0 ==> exists p: nat :: MostUrgent(queues, p) && current == Some(Queue(queues, p)[0])
    {
      lockNest := NestDown(lockNest);
      if lockNest == 0 {
        Schedule();
      }
    }
  }

  // ---- The scheduler lock ----

  /** The value of `x` in a signed 16-bit counter. */
  function Wrap16(x: int): (w: int)
    ensures -0x8000 <= w <= 0x7fff
  {
    (x + 0x8000) % 0x1_0000 - 0x8000
  }

  /** `rt_scheduler_lock_nest++` */
  function NestUp(n: int): int {
    Wrap16(n + 1)
  }

  /** The decrement of `rt_exit_critical`, which then resets a counter that is not positive. */
  function NestDown(n: int): int {
    if Wrap16(n - 1) <= 0 then 0 else Wrap16(n - 1)
  }

  function Entered(k: nat): int {
    if k == 0 then 0 else NestUp(Entered(k - 1))
  }

  function Exited(n: int, k: nat): int {
    if k == 0 then n else NestDown(Exited(n, k - 1))
  }

  lemma {:induction false} EnteredCounts(k: nat)
    ensures Entered(k) == Wrap16(k)
  {
    hide Wrap16;
    if k > 0 {
      EnteredCounts(k - 1);
      WrapNext(k - 1);
    } else {
      WrapNothing();
    }
  }

  lemma WrapNothing()
    ensures Wrap16(0) == 0
  {
  }

  lemma WrapNext(k: nat)
    ensures Wrap16(Wrap16(k) + 1) == Wrap16(k + 1)
  {
    var q, r := (k + 0x8000) / 0x1_0000, (k + 0x8000) % 0x1_0000;
    assert k + 0x8000 == q * 0x1_0000 + r;
    assert (r + 1) % 0x1_0000 == if r == 0xffff then 0 else r + 1;
    assert k + 1 + 0x8000 == if r == 0xffff then (q + 1) * 0x1_0000 else q * 0x1_0000 + (r + 1);
  }

  lemma {:induction false} ExitedCounts(n: int, k: nat)
    requires 0 <= n <= 0x7fff
    ensures Exited(n, k) == if k <= n then n - k else 0
  {
    if k > 0 { ExitedCounts(n, k - 1); }
  }

  lemma {:induction false} ExitedFirst(n: int, k: nat)
    ensures Exited(n, k + 1) == Exited(NestDown(n), k)
  {
    hide NestDown;
    if k > 0 { ExitedFirst(n, k - 1); }
  }

  /** Up to 32768 nested critical sections stay locked until the last exit: the decrement wraps as the increment did. */
  lemma LockedUntilLastExit(depth: nat, exits: nat)
    requires depth <= 0x8000 && exits <= depth
    ensures Exited(Entered(depth), exits) == 0 <==> exits == depth
  {
    hide Exited, Entered;
    EnteredCounts(depth);
    if depth <= 0x7fff {
      ExitedCounts(depth, exits);
    } else if exits > 0 {
      ExitedFirst(-0x8000, exits - 1);
      ExitedCounts(0x7fff, exits - 1);
    } else {
      NoExit(-0x8000);
    }
  }

  lemma NoExit(n: int)
    ensures Exited(n, 0) == n
  {
  }

  /** One more, and some exit before the last unlocks. */
  lemma UnlockedEarly(depth: nat) returns (exits: nat)
    requires depth > 0x8000
    ensures exits < depth && Exited(Entered(depth), exits) == 0
  {
    hide Exited, Entered;
    EnteredCounts(depth);
    var n := Wrap16(depth);
    if n >= 0 {
      exits := n;
      ExitedCounts(n, n);
    } else if n == -0x8000 {
      exits := 0x8000;
      ExitedFirst(n, 0x7fff);
      ExitedCounts(0x7fff, 0x7fff);
    } else {
      exits := 1;
      ExitedFirst(n, 0);
      NoExit(0);
    }
  }

  /** Nesting to a depth stays locked until the last exit if and only if the depth is at most 32768. */
  lemma LockedIffFits(depth: nat)
    ensures (forall exits: nat :: exits <= depth ==> (Exited(Entered(depth), exits) == 0 <==> exits == depth))
            <==> depth <= 0x8000
  {
    hide Exited, Entered;
    if depth <= 0x8000 {
      forall exits: nat | exits <= depth ensures Exited(Entered(depth), exits) == 0 <==> exits == depth {
        LockedUntilLastExit(depth, exits);
      }
    } else {
      var exits := UnlockedEarly(depth);
    }
  }

  lemma {:induction false} SetAgain(v: nat, i: nat)
    requires HasBit(v, i)
    ensures SetBit(v, i) == v
  {
    if i > 0 { SetAgain(v / 2, i - 1); }
  }
}
