/**
 The linked slots of a message queue: one `next` field per slot, and the head, tail and free pointers. Two
 acyclic chains run through the same fields, the free list and the queue; slots in flight are in neither. Each
 method keeps both chains and says which slots they hold, in order, so that the step system of module
 MessageQueue can speak of two sequences.
 */
module MessageSlots {
  import opened Common
  import opened Waiting
  import opened MessageQueue

  const Nil := -1

  /** The `next` fields from `first` on run through exactly the slots of `q`. */
  ghost predicate Chain(next: seq<int>, first: int, q: seq<Slot>)
    decreases |q|
  {
    if q == [] then first == Nil
    else first == q[0] && q[0] < |next| && Chain(next, next[q[0]], q[1..])
  }

  lemma {:induction false} ChainFrame(next: seq<int>, first: int, q: seq<Slot>, x: Slot, v: int)
    requires Chain(next, first, q) && x !in q && x < |next|
    ensures Chain(next[x := v], first, q)
    decreases |q|
  {
    if q != [] { ChainFrame(next, next[q[0]], q[1..], x, v); }
  }

  lemma ChainPush(next: seq<int>, first: int, q: seq<Slot>, x: Slot)
    requires Chain(next, first, q) && x !in q && x < |next|
    ensures Chain(next[x := first], x, [x] + q)
  {
    ChainFrame(next, first, q, x, first);
    assert ([x] + q)[1..] == q;
  }

  lemma {:induction false} ChainAppend(next: seq<int>, first: int, q: seq<Slot>, x: Slot)
    requires Chain(next, first, q) && q != [] && NoDup(q) && x !in q && x < |next| && next[x] == Nil
    ensures q[|q| - 1] < |next| && Chain(next[q[|q| - 1] := x], first, q + [x])
    decreases |q|
  {
    var rest := q[1..];
    assert q == [q[0]] + rest;
    assert (q + [x])[1..] == rest + [x];
    if rest == [] {
      assert Chain(next[q[0] := x], Nil, []);
      assert Chain(next[q[0] := x], x, [x]);
    } else {
      ChainAppend(next, next[q[0]], rest, x);
      assert rest[|rest| - 1] == q[|q| - 1] && q[0] != q[|q| - 1];
    }
  }

  lemma {:induction false} ChainBounds(next: seq<int>, first: int, q: seq<Slot>)
    requires Chain(next, first, q)
    ensures forall x :: x in q ==> x < |next|
    decreases |q|
  {
    if q != [] { ChainBounds(next, next[q[0]], q[1..]); assert q == [q[0]] + q[1..]; }
  }

  class SlotLists {
    const next: array<int>
    var head: int
    var tail: int
    var free: int
    var entry: nat
    ghost var freeSlots: seq<Slot>
    ghost var queueSlots: seq<Slot>

    ghost predicate Valid()
      reads this, next
    {
      && Chain(next[..], free, freeSlots) && Chain(next[..], head, queueSlots)
      && tail == (if queueSlots == [] then Nil else queueSlots[|queueSlots| - 1])
      && entry == |queueSlots|
      && NoDup(freeSlots) && NoDup(queueSlots)
      && (forall x :: x in freeSlots ==> x !in queueSlots)
    }

    /** The slot is in neither list: some thread owns it. */
    ghost predicate Loose(x: Slot)
      reads this, next
    {
      x < next.Length && x !in freeSlots && x !in queueSlots
    }

    /** `rt_mq_init`: the loop that pushes every slot on the free list. */
    constructor (maxMsgs: nat)
      ensures Valid() && fresh(next) && next.Length == maxMsgs && queueSlots == []
      ensures |freeSlots| == maxMsgs && forall i :: 0 <= i < maxMsgs ==> freeSlots[i] == maxMsgs - 1 - i
    {
      next := new int[maxMsgs];
      head, tail, free, entry := Nil, Nil, Nil, 0;
      freeSlots, queueSlots := [], [];
      new;
      var temp := 0;
      while temp < maxMsgs
        invariant 0 <= temp <= maxMsgs && next.Length == maxMsgs
        invariant Chain(next[..], free, freeSlots) && |freeSlots| == temp
        invariant forall i :: 0 <= i < temp ==> freeSlots[i] == temp - 1 - i
        invariant head == tail == Nil && entry == 0 && queueSlots == []
      {
        ChainBounds(next[..], free, freeSlots);
        ChainPush(next[..], free, freeSlots, temp);
        next[temp] := free;
        free := temp;
        freeSlots := [temp] + freeSlots;
        temp := temp + 1;
      }
    }

    /** First critical section of a send. */
    method TakeFree() returns (x: int)
      requires Valid()
      modifies this`free, this`freeSlots
      ensures Valid() && queueSlots == old(queueSlots)
      ensures old(freeSlots) == [] ==> x == Nil && freeSlots == []
      ensures old(freeSlots) != [] ==> x == old(freeSlots)[0] && freeSlots == old(freeSlots)[1..] && Loose(x)
    {
      x := free;
      if x != Nil {
        free := next[x];
        assert freeSlots == [freeSlots[0]] + freeSlots[1..];
        freeSlots := freeSlots[1..];
      }
    }

    /** Second critical section of `rt_mq_send`, with the `next` field cleared before it. */
    method LinkTail(x: Slot)
      requires Valid() && Loose(x)
      modifies this, next
      ensures Valid() && freeSlots == old(freeSlots) && queueSlots == Linking(old(queueSlots), x, false)
    {
      ghost var n0, q := next[..], queueSlots;
      ChainFrame(n0, free, freeSlots, x, Nil);
      ChainFrame(n0, head, q, x, Nil);
      next[x] := Nil;
      ghost var n1 := next[..];
      assert n1 == n0[x := Nil];
      if tail != Nil {
        ChainAppend(n1, head, q, x);
        ChainFrame(n1, free, freeSlots, tail, x);
        next[tail] := x;
        assert next[..] == n1[tail := x];
      }
      tail := x;
      if head == Nil { head := x; }
      entry := entry + 1;
      queueSlots := queueSlots + [x];
    }

    /** Second critical section of `rt_mq_urgent`. */
    method LinkHead(x: Slot)
      requires Valid() && Loose(x)
      modifies this, next
      ensures Valid() && freeSlots == old(freeSlots) && queueSlots == Linking(old(queueSlots), x, true)
    {
      ghost var n0 := next[..];
      ChainFrame(n0, free, freeSlots, x, head);
      ChainPush(n0, head, queueSlots, x);
      next[x] := head;
      assert next[..] == n0[x := head];
      head := x;
      if tail == Nil { tail := x; }
      entry := entry + 1;
      queueSlots := [x] + queueSlots;
    }

    /** Taking the head in `rt_mq_recv`, once `entry` is not zero. */
    method TakeHead() returns (x: Slot)
      requires Valid() && entry > 0
      modifies this`head, this`tail, this`entry, this`queueSlots
      ensures Valid() && freeSlots == old(freeSlots)
      ensures x == old(queueSlots)[0] && queueSlots == old(queueSlots)[1..] && Loose(x)
    {
      x := head;
      head := next[x];
      if tail == x { tail := Nil; }
      entry := entry - 1;
      assert queueSlots == [queueSlots[0]] + queueSlots[1..];
      queueSlots := queueSlots[1..];
    }

    /** Last critical section of `rt_mq_recv`. */
    method PutFree(x: Slot)
      requires Valid() && Loose(x)
      modifies this`free, this`freeSlots, next
      ensures Valid() && queueSlots == old(queueSlots) && freeSlots == [x] + old(freeSlots)
    {
      ghost var n0 := next[..];
      ChainFrame(n0, head, queueSlots, x, free);
      ChainPush(n0, free, freeSlots, x);
      next[x] := free;
      assert next[..] == n0[x := free];
      free := x;
      freeSlots := [x] + freeSlots;
    }

    /** The loop of `rt_mq_control` that empties the queue into the free list. */
    method ReleaseAll()
      requires Valid()
      modifies this, next
      ensures Valid() && queueSlots == [] && freeSlots == Reverse(old(queueSlots)) + old(freeSlots)
    {
      while head != Nil
        invariant Valid()
        invariant Reverse(queueSlots) + freeSlots == Reverse(old(queueSlots)) + old(freeSlots)
        decreases |queueSlots|
      {
        ghost var q, f := queueSlots, freeSlots;
        var msg := TakeHead();
        PutFree(msg);
        assert Reverse(q) + f == Reverse(q[1..]) + ([q[0]] + f);
      }
      entry := 0;
    }
  }
}
