/**
 Wait lists: where `rt_ipc_list_suspend` links a thread, and what taking one out leaves.
 A list is the sequence of its threads, head first.
 */
module Waiting {
  import opened Common

  type Tid = nat

  /** RT_IPC_FLAG_FIFO and RT_IPC_FLAG_PRIO; a smaller number is a more urgent priority. */
  datatype Flag = Fifo | Prio

  predicate Known(q: seq<Tid>, prio: map<Tid, nat>) {
    forall t :: t in q ==> t in prio
  }

  ghost predicate Sorted(q: seq<Tid>, prio: map<Tid, nat>)
    requires Known(q, prio)
  {
    forall i, j :: 0 <= i < j < |q| ==> prio[q[i]] <= prio[q[j]]
  }

  /** `q` with `t` linked before the first strictly less urgent thread, or at the end. */
  function Enqueue(q: seq<Tid>, t: Tid, flag: Flag, prio: map<Tid, nat>): (r: seq<Tid>)
    requires t in prio && Known(q, prio)
  {
    if q == [] then [t]
    else if flag.Prio? && prio[t] < prio[q[0]] then [t] + q
    else [q[0]] + Enqueue(q[1..], t, flag, prio)
  }

  function Remove(q: seq<Tid>, t: Tid): seq<Tid> {
    if q == [] then [] else if q[0] == t then q[1..] else [q[0]] + Remove(q[1..], t)
  }

  /** FIFO lists append. */
  lemma {:induction false} EnqueueFifo(q: seq<Tid>, t: Tid, prio: map<Tid, nat>)
    requires t in prio && Known(q, prio)
    ensures Enqueue(q, t, Fifo, prio) == q + [t]
  {
    if q != [] {
      EnqueueFifo(q[1..], t, prio);
    }
  }

  lemma {:induction false} EnqueueHolds(q: seq<Tid>, t: Tid, flag: Flag, prio: map<Tid, nat>)
    requires t in prio && Known(q, prio)
    ensures forall u :: u in Enqueue(q, t, flag, prio) <==> u in q || u == t
  {
    if q != [] && !(flag.Prio? && prio[t] < prio[q[0]]) {
      EnqueueHolds(q[1..], t, flag, prio);
      ConsHolds(q[0], q[1..]);
      ConsHolds(q[0], Enqueue(q[1..], t, flag, prio));
      assert q == [q[0]] + q[1..];
    }
  }

  lemma ConsHolds(x: Tid, r: seq<Tid>)
    ensures forall u :: u in [x] + r <==> u == x || u in r
  {
  }

  lemma ConsNoDup(x: Tid, r: seq<Tid>)
    ensures NoDup([x] + r) <==> x !in r && NoDup(r)
  {
    var q := [x] + r;
    if x !in r && NoDup(r) {
      forall i, j | 0 <= i < j < |q| ensures q[i] != q[j] {
        assert q[j] == r[j - 1] && (i > 0 ==> q[i] == r[i - 1]);
      }
    }
    if NoDup(q) {
      forall j | 0 <= j < |r| ensures r[j] != x { assert q[0] == x && q[j + 1] == r[j] && q[0] != q[j + 1]; }
      forall i, j | 0 <= i < j < |r| ensures r[i] != r[j] { assert q[i + 1] == r[i] && q[j + 1] == r[j]; }
    }
  }

  lemma {:induction false} EnqueueNoDup(q: seq<Tid>, t: Tid, flag: Flag, prio: map<Tid, nat>)
    requires t in prio && Known(q, prio) && t !in q && NoDup(q)
    ensures NoDup(Enqueue(q, t, flag, prio))
  {
    hide NoDup;
    ConsNoDup(t, q);
    if q != [] && !(flag.Prio? && prio[t] < prio[q[0]]) {
      ConsNoDup(q[0], q[1..]);
      assert q == [q[0]] + q[1..];
      EnqueueNoDup(q[1..], t, flag, prio);
      EnqueueHolds(q[1..], t, flag, prio);
      ConsNoDup(q[0], Enqueue(q[1..], t, flag, prio));
    }
    assert [t] + [] == [t];
  }

  lemma {:induction false} EnqueueRemoved(q: seq<Tid>, t: Tid, flag: Flag, prio: map<Tid, nat>)
    requires t in prio && Known(q, prio) && t !in q
    ensures Remove(Enqueue(q, t, flag, prio), t) == q
  {
    if q != [] && !(flag.Prio? && prio[t] < prio[q[0]]) {
      EnqueueRemoved(q[1..], t, flag, prio);
      assert ([q[0]] + Enqueue(q[1..], t, flag, prio))[1..] == Enqueue(q[1..], t, flag, prio);
    }
  }

  /** Any list gains exactly `t`, once, and removing it again gives the list before. */
  lemma EnqueueMembers(q: seq<Tid>, t: Tid, flag: Flag, prio: map<Tid, nat>)
    requires t in prio && Known(q, prio)
    ensures forall u :: u in Enqueue(q, t, flag, prio) <==> u in q || u == t
    ensures t !in q && NoDup(q) ==> NoDup(Enqueue(q, t, flag, prio))
    ensures t !in q ==> Remove(Enqueue(q, t, flag, prio), t) == q
  {
    hide Enqueue, Remove, NoDup;
    EnqueueHolds(q, t, flag, prio);
    if t !in q {
      EnqueueRemoved(q, t, flag, prio);
      if NoDup(q) { EnqueueNoDup(q, t, flag, prio); }
    }
  }

  lemma NewHead(q: seq<Tid>, t: Tid)
    requires NoDup(q) && t !in q
    ensures NoDup([t] + q) && forall u :: u in [t] + q <==> u == t || u in q
    ensures Remove([t] + q, t) == q
  {
    assert ([t] + q)[1..] == q;
  }

  /** `t` is linked at `i`: nobody before it is less urgent, and the next one, if any, is. */
  predicate PlacedAt(q: seq<Tid>, t: Tid, prio: map<Tid, nat>, r: seq<Tid>, i: nat)
    requires t in prio && Known(q, prio)
  {
    && i <= |q| && r == q[..i] + [t] + q[i..]
    && (forall k :: 0 <= k < i ==> prio[q[k]] <= prio[t])
    && (i < |q| ==> prio[t] < prio[q[i]])
  }

  /** A priority list puts `t` behind all that are as urgent, in order of arrival, and before the first that is less. */
  lemma {:induction false} EnqueuePlace(q: seq<Tid>, t: Tid, prio: map<Tid, nat>) returns (i: nat)
    requires t in prio && Known(q, prio)
    ensures PlacedAt(q, t, prio, Enqueue(q, t, Prio, prio), i)
  {
    if q == [] || prio[t] < prio[q[0]] {
      i := 0;
    } else {
      var k := EnqueuePlace(q[1..], t, prio);
      i := k + 1;
      assert q[..i] == [q[0]] + q[1..][..k];
    }
  }

  /** A priority list stays sorted, and its head is a most urgent waiter. */
  lemma {:induction false} EnqueueSorted(q: seq<Tid>, t: Tid, prio: map<Tid, nat>)
    requires t in prio && Known(q, prio) && Sorted(q, prio)
    ensures Known(Enqueue(q, t, Prio, prio), prio) && Sorted(Enqueue(q, t, Prio, prio), prio)
  {
    hide Sorted;
    if q == [] {
      OneSorted(t, prio);
    } else {
      var rest := q[1..];
      TailSorted(q, prio);
      EnqueueMembers(q, t, Prio, prio);
      if prio[t] < prio[q[0]] {
        ConsSorted(t, q, prio);
      } else {
        EnqueueSorted(rest, t, prio);
        EnqueueMembers(rest, t, Prio, prio);
        ConsSorted(q[0], Enqueue(rest, t, Prio, prio), prio);
      }
    }
  }

  lemma OneSorted(t: Tid, prio: map<Tid, nat>)
    requires t in prio
    ensures Known([t], prio) && Sorted([t], prio)
  {
  }

  lemma TailSorted(q: seq<Tid>, prio: map<Tid, nat>)
    requires Known(q, prio) && q != [] && Sorted(q, prio)
    ensures Known(q[1..], prio) && Sorted(q[1..], prio)
    ensures forall u :: u in q ==> u in prio && prio[q[0]] <= prio[u]
  {
  }

  lemma ConsSorted(x: Tid, r: seq<Tid>, prio: map<Tid, nat>)
    requires Known(r, prio) && Sorted(r, prio) && x in prio && forall u :: u in r ==> u in prio && prio[x] <= prio[u]
    ensures Known([x] + r, prio) && Sorted([x] + r, prio)
  {
    forall j | 0 <= j < |r| ensures prio[x] <= prio[r[j]] {
      assert r[j] in r;
    }
  }

  lemma {:induction false} RemoveMembers(q: seq<Tid>, t: Tid)
    requires NoDup(q)
    ensures forall u :: u in Remove(q, t) <==> u in q && u != t
    ensures NoDup(Remove(q, t))
    ensures t in q ==> |Remove(q, t)| == |q| - 1
  {
    if q != [] {
      assert q == [q[0]] + q[1..];
      assert q[0] !in q[1..];
      RemoveMembers(q[1..], t);
    }
  }

  /** Those before the thread and those behind it stay, in their order. */
  lemma {:induction false} RemoveBetween(a: seq<Tid>, t: Tid, b: seq<Tid>)
    requires t !in a
    ensures Remove(a + ([t] + b), t) == a + b
  {
    if a == [] {
      assert a + ([t] + b) == [t] + b && ([t] + b)[1..] == b && a + b == b;
    } else {
      RemoveBetween(a[1..], t, b);
      TailOfJoin(a, [t] + b);
      ConsAssoc(a[0], a[1..], b);
      assert a == [a[0]] + a[1..];
    }
  }

  lemma {:induction false} RemoveSorted(q: seq<Tid>, t: Tid, prio: map<Tid, nat>)
    requires Known(q, prio) && Sorted(q, prio) && NoDup(q)
    ensures Known(Remove(q, t), prio) && Sorted(Remove(q, t), prio)
  {
    hide Sorted, NoDup;
    if q != [] {
      TailSorted(q, prio);
      ConsNoDup(q[0], q[1..]);
      assert q == [q[0]] + q[1..];
      if q[0] != t {
        RemoveSorted(q[1..], t, prio);
        RemoveMembers(q[1..], t);
        ConsSorted(q[0], Remove(q[1..], t), prio);
      }
    } else {
      assert Sorted(q, prio);
    }
  }

  /** The search loop of `rt_ipc_list_suspend`. */
  method ListSuspend(q: seq<Tid>, t: Tid, flag: Flag, prio: map<Tid, nat>) returns (r: seq<Tid>)
    requires t in prio && Known(q, prio)
    ensures r == Enqueue(q, t, flag, prio)
  {
    match flag
    case Fifo =>
      EnqueueFifo(q, t, prio);
      r := q + [t];
    case Prio =>
      var n := 0;
      while n < |q| && !(prio[t] < prio[q[n]])
        invariant 0 <= n <= |q|
        invariant Enqueue(q, t, flag, prio) == q[..n] + Enqueue(q[n..], t, flag, prio)
      {
        n := n + 1;
      }
      r := q[..n] + [t] + q[n..];
  }
}
