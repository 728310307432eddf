/**
 The memory heap in place: header fields linked into the ring of blocks and the ring of free blocks, and
 the bytes of the pool, which every store to a header field overwrites. Each method is proved to be the function
 of the same name on values, so all that modules MemHeapOps and MemHeapRuns prove holds of it; what is said here
 beyond that is about the two rings and the bytes: which headers a method may write, and hence which payloads it
 leaves alone.
 */
module MemHeapObjects {
  import opened Common
  import opened Waiting
  import opened RtList
  import opened BlockList
  import opened PoolBytes
  import opened MemHeap
  import opened MemHeapOps
  import opened MemHeapRuns

  lemma {:induction false} RemoveAt(q: seq<Addr>, k: nat)
    requires NoDup(q) && k < |q|
    ensures Remove(q, q[k]) == DropAt(q, k)
  {
    if k > 0 {
      RemoveAt(q[1..], k - 1);
    }
  }

  lemma ListPush(head: Addr, q: seq<Addr>, x: Addr)
    ensures InsertAt([head] + q, 1, x) == [head] + ([x] + q)
  {
  }

  lemma ListCut(head: Addr, q: seq<Addr>, k: nat)
    requires k < |q|
    ensures DropAt([head] + q, k + 1) == [head] + DropAt(q, k)
  {
  }

  lemma RemovePast(a: Addr, q: seq<Addr>, x: Addr)
    requires a != x
    ensures Remove([a] + q, x) == [a] + Remove(q, x)
  {
    assert ([a] + q)[1..] == q;
  }

  class MemHeapObject {
    const start: Addr
    const size: nat
    /** The header of the free list, which is not in the pool. */
    const listHead: Addr
    const mem: array<Byte>
    var next: Fields
    var prev: Fields
    var nextFree: Fields
    var prevFree: Fields
    /** The used bit of each header's magic number. */
    var used: set<Addr>
    var available: int
    var maxUsed: int
    ghost var addrs: seq<Addr>
    ghost var free: seq<Addr>

    ghost function Abs(): Heap
      reads this
    {
      Heap(Blocks(addrs, used, free), available, maxUsed)
    }

    ghost predicate Linked()
      reads this`next, this`prev, this`nextFree, this`prevFree, this`addrs, this`free
    {
      && Ring(addrs, next, prev) && Ring([listHead] + free, nextFree, prevFree)
      && (listHead >= start + size || listHead + H <= start)
      && mem.Length == size && start + size <= Word
    }

    ghost predicate Valid()
      reads this
    {
      Linked() && Inv(Abs(), start, size)
    }

    /** `rt_memheap_init` on a pool of `size` bytes: one free block and the used tail. */
    constructor (start: Addr, size: nat, listHead: Addr)
      requires size >= 2 * H && size % 4 == 0 && start + size <= Word
      requires listHead >= start + size || listHead + H <= start
      ensures Valid() && Abs() == InitHeap(start, size) && this.start == start && this.size == size
      ensures fresh(mem)
    {
      this.start, this.size, this.listHead := start, size, listHead;
      mem := new Byte[size];
      var tail := start + (size - H);
      next := map[start := tail, tail := start];
      prev := map[start := tail, tail := start];
      nextFree := map[listHead := start, start := listHead];
      prevFree := map[listHead := start, start := listHead];
      used := {tail};
      available := size - 2 * H;
      maxUsed := size - (size - 2 * H);
      addrs, free := [start, tail], [start];
      new;
      InitInv(start, size);
    }

    ghost predicate Covered(hs: set<Addr>)
      reads this`addrs, this`free
    {
      listHead in hs && (forall u :: u in addrs ==> u in hs) && (forall u :: u in free ==> u in hs)
    }

    /** Links the header `x` into the block ring behind `a`. */
    method LinkBlock(a: Addr, x: Addr, ghost i: nat, ghost hs: set<Addr>)
      requires Linked() && Covered(hs) && x in hs && i < |addrs| && addrs[i] == a && x !in addrs
      modifies this`next, this`prev, this`addrs, mem
      ensures Linked() && Covered(hs) && addrs == InsertAt(old(addrs), i + 1, x)
      ensures OnlyHeaders(H, hs, start, old(mem[..]), mem[..])
    {
      hide OnlyHeaders;
      InsertRing(addrs, next, prev, i, x);
      PutNoDup(addrs, i + 1, x);
      assert LinkedAt(addrs, next, prev, i);
      var succ := Get(next, a);
      assert prev[x := a][succ := x] == prev[succ := x][x := a];
      prev := prev[x := a];
      next := next[x := succ];
      prev := prev[succ := x];
      next := next[a := x];
      addrs := InsertAt(addrs, i + 1, x);
      StoreHeaders(H, mem, start, x, succ, a, hs);
    }

    /** Takes the header `x` out of the block ring. */
    method UnlinkBlock(x: Addr, ghost i: nat, ghost hs: set<Addr>)
      requires Linked() && Covered(hs) && 0 < i < |addrs| && addrs[i] == x
      modifies this`next, this`prev, this`addrs, mem
      ensures Linked() && Covered(hs) && addrs == DropAt(old(addrs), i)
      ensures OnlyHeaders(H, hs, start, old(mem[..]), mem[..])
    {
      hide OnlyHeaders;
      RemoveRing(addrs, next, prev, i);
      var before, succ := Get(prev, x), Get(next, x);
      next := next[before := succ];
      prev := prev[succ := before];
      assert before in addrs && succ in addrs;
      addrs := DropAt(addrs, i);
      StoreHeaders(H, mem, start, before, succ, succ, hs);
    }

    /** Links `x` in at the head of the free list. */
    method PushFree(x: Addr, ghost hs: set<Addr>)
      requires Linked() && Covered(hs) && x in hs && x !in free && x != listHead
      modifies this`nextFree, this`prevFree, this`free, mem
      ensures Linked() && Covered(hs) && free == [x] + old(free)
      ensures OnlyHeaders(H, hs, start, old(mem[..]), mem[..])
    {
      hide OnlyHeaders;
      ghost var ring := [listHead] + free;
      InsertRing(ring, nextFree, prevFree, 0, x);
      ListPush(listHead, free, x);
      assert LinkedAt(ring, nextFree, prevFree, 0);
      var first := Get(nextFree, listHead);
      assert first == listHead || first in free;
      assert prevFree[x := listHead][first := x] == prevFree[first := x][x := listHead];
      nextFree := nextFree[x := first];
      prevFree := prevFree[x := listHead];
      prevFree := prevFree[first := x];
      nextFree := nextFree[listHead := x];
      free := [x] + free;
      StoreHeaders(H, mem, start, x, first, listHead, hs);
    }

    /** Takes `x` out of the free list. */
    method UnlinkFree(x: Addr, ghost hs: set<Addr>)
      requires Linked() && Covered(hs) && x in free && NoDup(free)
      modifies this`nextFree, this`prevFree, this`free, mem
      ensures Linked() && Covered(hs) && free == Remove(old(free), x)
      ensures OnlyHeaders(H, hs, start, old(mem[..]), mem[..])
    {
      hide OnlyHeaders, Remove, NoDup, LinkedAt;
      var k := FreeLinks(x, hs);
      var before, succ := Get(prevFree, x), Get(nextFree, x);
      prevFree := prevFree[succ := before];
      nextFree := nextFree[before := succ];
      free := Remove(free, x);
      StoreHeaders(H, mem, start, before, succ, x, hs);
    }

    /** Where `x` is linked in the free list, and the ring that unlinking it leaves. */
    lemma FreeLinks(x: Addr, hs: set<Addr>) returns (k: nat)
      requires Linked() && Covered(hs) && x in free && NoDup(free)
      ensures var before, succ := Get(prevFree, x), Get(nextFree, x);
              && before in hs && succ in hs && x in hs
              && Ring([listHead] + Remove(free, x), nextFree[before := succ], prevFree[succ := before])
              && forall u :: u in Remove(free, x) ==> u in hs
    {
      k :| 0 <= k < |free| && free[k] == x;
      var ring := [listHead] + free;
      RemoveRing(ring, nextFree, prevFree, k + 1);
      ListCut(listHead, free, k);
      RemoveAt(free, k);
      RemoveMembers(free, x);
      assert ring[k] in ring && RtList.After(ring, k + 1) in ring;
    }

    /** MEMITEM_SIZE of a free block, read from its header. */
    method ItemSize(a: Addr, ghost i: nat) returns (n: int)
      requires Valid() && i + 1 < |addrs| && addrs[i] == a
      ensures n == Payload(addrs, i)
    {
      assert LinkedAt(addrs, next, prev, i);
      n := Get(next, a) - a - H;
    }

    lemma FreePosition(a: Addr) returns (i: nat)
      requires Valid() && a in free
      ensures i + 1 < |addrs| && addrs[i] == a && Index(addrs, a) == i && a !in used
      ensures SizeAt(H, addrs, a) == Payload(addrs, i)
    {
      hide Ring, Spaced, FreeBytes, NoNeighbours;
      FreeAt(Abs().b, start, size, a);
      i := Index(addrs, a);
    }

    lemma FreeNotHead()
      requires Valid()
      ensures listHead !in free
    {
    }

    /** The search loop of `rt_memheap_alloc`. */
    method FindFit(want: Size) returns (a: Addr, found: bool)
      requires Valid() && want > 0
      ensures FirstFit(addrs, free, want) == if found then Some(a) else None
    {
      hide Inv, NoDup;
      ghost var ring := [listHead] + free;
      ghost var k := 0;
      FreeNotHead();
      assert LinkedAt(ring, nextFree, prevFree, 0);
      a := Get(nextFree, listHead);
      found := false;
      assert free[0..] == free;
      while a != listHead && !found
        invariant 0 <= k <= |free| && a == (if k < |free| then free[k] else listHead)
        invariant found ==> k < |free| && SizeAt(H, addrs, free[k]) >= want
        invariant FirstFit(addrs, free, want) == FirstFit(addrs, free[k..], want)
        decreases |free| - k, !found
      {
        var i := FreePosition(a);
        var freeSize := ItemSize(a, i);
        if freeSize < want {
          assert LinkedAt(ring, nextFree, prevFree, k + 1);
          assert free[k..][1..] == free[k + 1..];
          a := Get(nextFree, a);
          k := k + 1;
        } else {
          found := true;
        }
      }
    }
  
    /** The headers of a state and of the one before it: nothing else is ever overwritten. */
    ghost function Headers(was: seq<Addr>): set<Addr>
      reads this`addrs
    {
      HeaderSet(was) + HeaderSet(addrs) + {listHead}
    }

    lemma Covers(hs: set<Addr>)
      requires Valid() && HeaderSet(addrs) <= hs && listHead in hs
      ensures Covered(hs) && NoDup(free)
      ensures forall u :: u in free ==> u in addrs
    {
    }

    lemma NewHeader(x: Addr, i: nat)
      requires Valid() && i + 1 < |addrs| && addrs[i] + H <= x && x + H <= addrs[i + 1]
      ensures x !in addrs && x !in free && x != listHead
    {
      SpacedMember(H, addrs, i + 1, x);
      LastAbove(Abs().b, start, size, i);
      LastAbove(Abs().b, start, size, i + 1);
    }

    /** Writes a free header at `x` inside the free block `a`, which leaves the free list. */
    method SplitFree(a: Addr, x: Addr, ghost i: nat, ghost hs: set<Addr>)
      requires Linked() && Covered(hs) && x in hs && i < |addrs| && addrs[i] == a && a in free && NoDup(free)
      requires x !in addrs && x !in free && x != listHead
      modifies this`next, this`prev, this`addrs, this`nextFree, this`prevFree, this`free, mem
      ensures Linked() && addrs == InsertAt(old(addrs), i + 1, x) && free == [x] + Remove(old(free), a)
      ensures OnlyHeaders(H, hs, start, old(mem[..]), mem[..])
    {
      hide Linked, OnlyHeaders, Covered, InsertAt;
      ghost var m0 := mem[..];
      RemoveMembers(free, a);
      LinkBlock(a, x, i, hs);
      ghost var m1 := mem[..];
      UnlinkFree(a, hs);
      ghost var m2 := mem[..];
      PushFree(x, hs);
      OnlyTwice(H, hs, start, m0, m1, m2);
      OnlyTwice(H, hs, start, m0, m2, mem[..]);
    }

    /** The found block goes to the caller, split if the rest can hold a block. */
    method TakeBlock(a: Addr, want: nat, ghost i: nat)
      requires Valid() && i + 1 < |addrs| && addrs[i] == a && a in free
      requires want % 4 == 0 && Payload(addrs, i) >= want
      modifies this, mem
      ensures Valid() && Abs() == Take(old(Abs()), size, i, want)
      ensures OnlyHeaders(H, Headers(old(addrs)), start, old(mem[..]), mem[..])
    {
      hide Inv, Linked, OnlyHeaders, Covered, InsertAt, HeaderSet;
      ghost var h0 := Abs();
      var freeSize := ItemSize(a, i);
      ghost var k := FreePosition(a);
      TakeKeepsInv(h0, start, size, i, want);
      var x := a + H + want;
      ghost var hs := HeaderSet(addrs) + {listHead} + (if freeSize >= want + H + MinAlloc then {x} else {});
      Covers(hs);
      PoolArray();
      ghost var m0 := mem[..];
      if freeSize >= want + H + MinAlloc {
        NewHeader(x, i);
        SplitFree(a, x, i, hs);
        available := available - want - H;
      } else {
        available := available - freeSize;
        UnlinkFree(a, hs);
      }
      maxUsed := if size - available > maxUsed then size - available else maxUsed;
      used := used + {a};
      ghost var m1 := mem[..];
      InHeaders(hs, h0.b.addrs, i);
      StoreHeader(H, mem, start, a, hs);
      OnlyTwice(H, hs, start, m0, m1, mem[..]);
      SameHeaders(hs, h0.b.addrs, i, x);
    }

    lemma PoolArray()
      requires Valid()
      ensures mem.Length == size && start + size <= Word
      ensures listHead >= start + size || listHead + H <= start
    {
    }

    lemma InHeaders(hs: set<Addr>, was: seq<Addr>, i: nat)
      requires i < |was| && HeaderSet(was) <= hs
      ensures was[i] in hs
    {
    }

    lemma SameHeaders(hs: set<Addr>, was: seq<Addr>, i: nat, x: Addr)
      requires i < |was|
      requires || (addrs == was && hs == HeaderSet(was) + {listHead})
               || (addrs == InsertAt(was, i + 1, x) && hs == HeaderSet(was) + {listHead} + {x})
      ensures hs == Headers(was)
    {
      if addrs == InsertAt(was, i + 1, x) { InsertMembers(was, i + 1, x); }
    }

    /** `rt_memheap_alloc`: the header of the block whose payload is handed out. */
    method Alloc(request: Size) returns (r: Option<Addr>)
      requires Valid()
      modifies this, mem
      ensures Valid() && (Abs(), r) == MemHeapOps.Alloc(old(Abs()), size, request)
      ensures OthersKept(H, start, old(Abs()).b.addrs, old(Abs()).b.used, None, old(mem[..]), mem[..])
    {
      hide Inv, Linked, Take, Rounded, OnlyHeaders, OthersKept, OthersStay;
      ghost var h0, m0 := Abs(), mem[..];
      PoolArray();
      r := AllocBlock(request);
      AllOthersStay(h0, request);
      Kept(h0, None, m0, mem[..]);
    }

    lemma PoolSpaced(h: Heap)
      requires Inv(h, start, size)
      ensures Spaced(H, h.b.addrs) && Pooled(h.b.addrs, start, size)
    {
      forall a | a in h.b.addrs ensures start <= a <= start + size {
        LastAbove(h.b, start, size, Index(h.b.addrs, a));
      }
    }

    /** A step that only stores to headers leaves the payload of every block that stays. */
    lemma Kept(h0: Heap, at: Option<Addr>, m0: seq<Byte>, m1: seq<Byte>)
      requires Inv(h0, start, size) && Inv(Abs(), start, size)
      requires listHead >= start + size || listHead + H <= start
      requires OnlyHeaders(H, Headers(h0.b.addrs), start, m0, m1) && OthersStay(h0.b, Abs().b, at)
      ensures OthersKept(H, start, h0.b.addrs, h0.b.used, at, m0, m1)
    {
      hide Inv, OnlyHeaders, OthersStayIn;
      PoolSpaced(h0);
      PoolSpaced(Abs());
      StoresKeep(H, h0.b.addrs, h0.b.used, addrs, used, at, Headers(h0.b.addrs), start, size, m0, m1);
    }

    lemma AllOthersStay(h0: Heap, request: Size)
      requires Inv(h0, start, size)
      ensures OthersStay(h0.b, MemHeapOps.Alloc(h0, size, request).0.b, None)
    {
      hide Inv;
      var b := MemHeapOps.Alloc(h0, size, request).0.b;
      forall u: Addr ensures Stays(h0.b, b, u) {
        AllocStays(h0, start, size, request, u);
      }
      AllStay(h0.b, b, None);
    }

    method AllocBlock(request: Size) returns (r: Option<Addr>)
      requires Valid()
      modifies this, mem
      ensures Valid() && (Abs(), r) == MemHeapOps.Alloc(old(Abs()), size, request)
      ensures OnlyHeaders(H, Headers(old(addrs)), start, old(mem[..]), mem[..])
    {
      hide Inv, Ring, Take, Rounded;
      var want := Rounded(request);
      r := None;
      if want < available {
        var a, found := FindFit(want);
        if found {
          ghost var i := FreePosition(a);
          TakeBlock(a, want, i);
          r := Some(a);
        }
      }
    }
  
    /** Unlinks the block behind `a` when it is free, from both lists. */
    method MergeRight(a: Addr, ghost i: nat, ghost hs: set<Addr>) returns (merged: bool)
      requires Linked() && Covered(hs) && NoDup(free) && i + 1 < |addrs| && addrs[i] == a
      requires addrs[i + 1] in used || addrs[i + 1] in free
      modifies this`next, this`prev, this`addrs, this`nextFree, this`prevFree, this`free, mem
      ensures Linked() && Covered(hs) && merged == (old(addrs[i + 1]) !in used)
      ensures addrs == (if merged then DropAt(old(addrs), i + 1) else old(addrs))
      ensures free == (if merged then Remove(old(free), old(addrs[i + 1])) else old(free))
      ensures OnlyHeaders(H, hs, start, old(mem[..]), mem[..])
    {
      hide OnlyHeaders, DropAt, Remove;
      assert LinkedAt(addrs, next, prev, i);
      var right := Get(next, a);
      ghost var m0 := mem[..];
      merged := right !in used;
      OnlySame(H, hs, start, m0);
      if merged {
        UnlinkBlock(right, i + 1, hs);
        ghost var m1 := mem[..];
        UnlinkFree(right, hs);
        OnlyTwice(H, hs, start, m0, m1, mem[..]);
      }
    }

    lemma Neighbours(i: nat)
      requires Valid() && i < |addrs|
      ensures i > 0 ==> addrs[i - 1] != addrs[i]
      ensures i + 1 < |addrs| ==> addrs[i + 1] != addrs[i]
      ensures forall k :: 0 <= k < |addrs| && addrs[k] !in used ==> addrs[k] in free
      ensures forall k :: 0 <= k < |addrs| && k != i ==> addrs[k] != addrs[i]
      ensures addrs[i] != listHead && (addrs[i] in used ==> addrs[i] !in free)
    {
      if i > 0 { DifferAt(Abs().b, start, size, i - 1, i); }
      if i + 1 < |addrs| { DifferAt(Abs().b, start, size, i, i + 1); }
      LastAbove(Abs().b, start, size, i);
    }

    /** Joins `a`, no longer used, to the block before it when that is free. */
    method MergeLeft(a: Addr, ghost i: nat, ghost hs: set<Addr>) returns (header: Addr, merged: bool)
      requires Linked() && Covered(hs) && i < |addrs| && addrs[i] == a && addrs[|addrs| - 1] in used
      modifies this`next, this`prev, this`addrs, mem
      ensures Linked() && Covered(hs) && merged == (i > 0 && old(addrs[i - 1]) !in used)
      ensures header == if merged then old(addrs[i - 1]) else a
      ensures addrs == if merged then DropAt(old(addrs), i) else old(addrs)
      ensures OnlyHeaders(H, hs, start, old(mem[..]), mem[..])
    {
      hide Linked, OnlyHeaders, Covered, DropAt;
      var left := LeftOf(a, i);
      OnlySame(H, hs, start, mem[..]);
      header, merged := a, false;
      if left !in used {
        UnlinkBlock(a, i, hs);
        header, merged := left, true;
      }
    }

    lemma TailAt(i: nat)
      requires Valid() && i + 1 < |addrs|
      ensures addrs[|addrs| - 1] in used && addrs[|addrs| - 1] != addrs[i]
    {
      DifferAt(Abs().b, start, size, i, |addrs| - 1);
    }

    /** Both merges, and the insertion into the free list when there was nothing to the left. */
    method Merge(a: Addr, ghost i: nat, ghost hs: set<Addr>)
      requires Linked() && Covered(hs) && NoDup(free) && i + 1 < |addrs| && addrs[i] == a && addrs[|addrs| - 1] in used
      requires a !in free && a != listHead && a in hs && addrs[i + 1] != a
      requires forall k :: 0 <= k < |addrs| && k != i && addrs[k] !in used ==> addrs[k] in free
      modifies this`next, this`prev, this`addrs, this`nextFree, this`prevFree, this`free, this`available, mem
      ensures Linked()
      ensures var left := i > 0 && old(addrs[i - 1]) !in used;
              var right := old(addrs[i + 1]) !in used;
              var b1 := Blocks(old(addrs), used, [a] + old(free));
              var b2 := if left then Join(b1, i) else b1;
              && Blocks(addrs, used, free) == JoinNext(b2, if left then i - 1 else i)
              && available == old(available) + (if left then H else 0) + (if right then H else 0)
      ensures OnlyHeaders(H, hs, start, old(mem[..]), mem[..])
    {
      hide Linked, OnlyHeaders, Covered, DropAt, Remove;
      ghost var m0 := mem[..];
      ghost var right := addrs[i + 1];
      NewHead(free, a);
      RemovePast(a, free, right);
      var header, merged := MergeLeft(a, i, hs);
      ghost var m1 := mem[..];
      if merged { available := available + H; }
      ghost var k := if merged then i - 1 else i;
      var mergedRight := MergeRight(header, k, hs);
      ghost var m2 := mem[..];
      OnlyTwice(H, hs, start, m0, m1, m2);
      if mergedRight { available := available + H; }
      if !merged {
        RemoveMembers(old(free), right);
        PushFree(header, hs);
        OnlyTwice(H, hs, start, m0, m2, mem[..]);
      }
    }

    /** `rt_memheap_free`. */
    method Free(a: Addr, ghost i: nat)
      requires Valid() && i + 1 < |addrs| && addrs[i] == a && a in used
      modifies this, mem
      ensures Valid() && Abs() == MemHeapOps.Free(old(Abs()), i)
      ensures OnlyHeaders(H, Headers(old(addrs)), start, old(mem[..]), mem[..])
    {
      hide Inv, Linked, OnlyHeaders, Covered, DropAt, HeaderSet, Remove, JoinNext;
      ghost var h0 := Abs();
      ghost var hs := HeaderSet(addrs) + {listHead};
      FreeKeepsInv(h0, start, size, i);
      Covers(hs);
      PoolArray();
      Neighbours(i);
      TailAt(i);
      InHeaders(hs, addrs, i);
      ghost var m0 := mem[..];
      var bytes := ItemSize(a, i);
      used := used - {a};
      StoreHeader(H, mem, start, a, hs);
      available := available + bytes;
      ghost var m1 := mem[..];
      Merge(a, i, hs);
      OnlyTwice(H, hs, start, m0, m1, mem[..]);
      JoinedWithin(h0.b, i);
      FewerHeaders(hs, h0.b.addrs);
    }

    lemma JoinedWithin(b: Blocks, i: nat)
      requires i + 1 < |b.addrs|
      ensures forall u :: u in MemHeapOps.Free(Heap(b, available, maxUsed), i).b.addrs ==> u in b.addrs
    {
    }

    method LeftOf(a: Addr, ghost i: nat) returns (left: Addr)
      requires Linked() && i < |addrs| && addrs[i] == a
      ensures left == if i > 0 then addrs[i - 1] else addrs[|addrs| - 1]
    {
      assert LinkedAt(addrs, next, prev, if i > 0 then i - 1 else |addrs| - 1);
      left := Get(prev, a);
    }

    lemma FewerHeaders(hs: set<Addr>, was: seq<Addr>)
      requires hs == HeaderSet(was) + {listHead} && forall u :: u in addrs ==> u in was
      ensures hs == Headers(was)
    {
    }
  
    /**
     The header at `x` is in no ring any more and is written over, in part or whole, so that its fields may read as
     anything from here on; the rings do not depend on it.
     */
    method Overwrite(x: Addr, ghost hs: set<Addr>)
      requires Linked() && Covered(hs) && x !in addrs && x !in free && x != listHead
      modifies this`next, this`prev, this`nextFree, this`prevFree
      ensures Linked() && Covered(hs)
    {
      ghost var next0, prev0, nextFree0, prevFree0 := next, prev, nextFree, prevFree;
      var a: Addr, b: Addr, c: Addr, d: Addr := *, *, *, *;
      next, prev, nextFree, prevFree := next[x := a], prev[x := b], nextFree[x := c], prevFree[x := d];
      OtherRing(addrs, next0, prev0, next, prev);
      OtherRing([listHead] + free, nextFree0, prevFree0, nextFree, prevFree);
    }

    /**
     Moves the header of the free block behind `a` up to `x`, and to the head of the free list. The new header may lie
     over the old one, whose fields are lost before any field of the new one is written.
     */
    method MoveHeader(a: Addr, x: Addr, ghost i: nat, ghost hs: set<Addr>)
      requires Linked() && Covered(hs) && NoDup(free) && i + 1 < |addrs| && addrs[i] == a
      requires addrs[i + 1] in free && addrs[i + 1] !in DropAt(addrs, i + 1)
      requires x in hs && x != listHead && x !in DropAt(addrs, i + 1) && x !in Remove(free, addrs[i + 1])
      modifies this`next, this`prev, this`addrs, this`nextFree, this`prevFree, this`free, mem
      ensures Linked()
      ensures Blocks(addrs, used, free) == Cut(Join(Blocks(old(addrs), used, old(free)), i + 1), i + 1, x)
      ensures OnlyHeaders(H, hs, start, old(mem[..]), mem[..])
    {
      hide OnlyHeaders, DropAt, InsertAt, Remove, Covered;
      ghost var m0 := mem[..];
      assert LinkedAt(addrs, next, prev, i);
      var right := Get(next, a);
      FreeApart(right);
      hide Linked;
      UnlinkFree(right, hs);
      ghost var m1 := mem[..];
      UnlinkBlock(right, i + 1, hs);
      ghost var m2 := mem[..];
      OnlyTwice(H, hs, start, m0, m1, m2);
      Overwrite(right, hs);
      LinkBlock(a, x, i, hs);
      ghost var m3 := mem[..];
      OnlyTwice(H, hs, start, m0, m2, m3);
      PushFree(x, hs);
      OnlyTwice(H, hs, start, m0, m3, mem[..]);
    }

    lemma FreeApart(x: Addr)
      requires Linked() && NoDup(free) && x in free
      ensures x != listHead && x !in Remove(free, x)
    {
      RemoveMembers(free, x);
      var k :| 0 <= k < |free| && free[k] == x;
      assert ([listHead] + free)[k + 1] == x && ([listHead] + free)[0] == listHead;
    }

    lemma MovedHeader(x: Addr, i: nat)
      requires Valid() && i + 2 < |addrs| && addrs[i + 1] !in used
      requires addrs[i] + H <= x && x + H <= addrs[i + 2] && x < Word
      ensures addrs[i + 1] in free && addrs[i + 1] !in DropAt(addrs, i + 1)
      ensures x != listHead && x !in DropAt(addrs, i + 1) && x !in Remove(free, addrs[i + 1])
      ensures forall u :: u in DropAt(addrs, i + 1) ==> u in addrs
    {
      var d := DropAt(addrs, i + 1);
      SpacedDrop(H, addrs, i + 1);
      DropMembers(H, addrs, i + 1);
      SpacedMember(H, d, i + 1, x);
      RemoveMembers(free, addrs[i + 1]);
      LastAbove(Abs().b, start, size, i);
      LastAbove(Abs().b, start, size, i + 2);
    }

    /** In-place growth into the free block behind. */
    method GrowBlock(a: Addr, want: Size, ghost i: nat)
      requires Valid() && i + 2 < |addrs| && addrs[i] == a && a in used && addrs[i + 1] !in used
      requires want % 4 == 0 && Payload(addrs, i) < want < Payload(addrs, i) + Payload(addrs, i + 1)
      modifies this, mem
      ensures Valid() && Abs() == Grow(old(Abs()), size, i, want)
      ensures OnlyHeaders(H, Headers(old(addrs)), start, old(mem[..]), mem[..])
    {
      hide Inv, Linked, OnlyHeaders, Covered, DropAt, InsertAt, HeaderSet, Remove;
      ghost var h0 := Abs();
      var x := a + H + want;
      ghost var hs := HeaderSet(addrs) + {listHead} + {x};
      GrowKeepsInv(h0, start, size, i, want);
      Covers(hs);
      InPool(i + 2);
      MovedHeader(x, i);
      var has := ItemSize(a, i);
      available := available - (want - has);
      maxUsed := if size - available > maxUsed then size - available else maxUsed;
      MoveHeader(a, x, i, hs);
      MovedHeaders(hs, h0.b.addrs, DropAt(h0.b.addrs, i + 1), i + 1, x);
    }

    lemma InPool(i: nat)
      requires Valid() && i < |addrs|
      ensures addrs[i] < Word
    {
      LastAbove(Abs().b, start, size, i);
    }

    lemma MovedHeaders(hs: set<Addr>, was: seq<Addr>, rest: seq<Addr>, i: nat, x: Addr)
      requires hs == HeaderSet(was) + {listHead} + {x} && i <= |rest| && addrs == InsertAt(rest, i, x)
      requires forall u :: u in rest ==> u in was
      ensures hs == Headers(was)
    {
      InsertMembers(rest, i, x);
    }

    /** In-place shrinking: a header is written at `x` and the rest merges with a free block behind it. */
    method SplitUsed(a: Addr, x: Addr, ghost i: nat, ghost hs: set<Addr>)
      requires Linked() && Covered(hs) && NoDup(free) && i + 1 < |addrs| && addrs[i] == a
      requires x in hs && x !in addrs && x !in free && x != listHead && (addrs[i + 1] in used || addrs[i + 1] in free)
      modifies this`next, this`prev, this`addrs, this`nextFree, this`prevFree, this`free, mem
      ensures Linked()
      ensures Blocks(addrs, used, free) == JoinNext(Cut(Blocks(old(addrs), used, old(free)), i + 1, x), i + 1)
      ensures OnlyHeaders(H, hs, start, old(mem[..]), mem[..])
    {
      hide Linked, OnlyHeaders, Covered, DropAt, InsertAt, Remove;
      ghost var m0 := mem[..];
      ghost var right := addrs[i + 1];
      RemoveMembers(free, right);
      RemovePast(x, free, right);
      LinkBlock(a, x, i, hs);
      ghost var m1 := mem[..];
      var merged := MergeRight(x, i + 1, hs);
      ghost var m2 := mem[..];
      OnlyTwice(H, hs, start, m0, m1, m2);
      PushFree(x, hs);
      OnlyTwice(H, hs, start, m0, m2, mem[..]);
    }

    method ShrinkBlock(a: Addr, want: Size, ghost i: nat)
      requires Valid() && i + 1 < |addrs| && addrs[i] == a && a in used
      requires addrs[i + 1] in used || i + 2 < |addrs|
      requires want % 4 == 0 && want + H <= Payload(addrs, i)
      modifies this, mem
      ensures Valid() && Abs() == Shrink(old(Abs()), i, want)
      ensures OnlyHeaders(H, Headers(old(addrs)), start, old(mem[..]), mem[..])
    {
      hide Inv, Linked, OnlyHeaders, Covered, DropAt, InsertAt, HeaderSet, Remove, Payload;
      ghost var h0 := Abs();
      var x := a + H + want;
      ghost var hs := HeaderSet(addrs) + {listHead} + {x};
      ShrinkKeepsInv(h0, start, size, i, want);
      Covers(hs);
      Neighbours(i);
      ShrinkFits(x, i, want);
      var right := RightOf(a, i);
      if right !in used {
        var bytes := ItemSize(right, i + 1);
        available := available - bytes;
      }
      SplitUsed(a, x, i, hs);
      var rest := RestSize(x, i + 1);
      available := available + rest;
      ShrunkHeaders(hs, h0.b, i, x);
    }

    lemma ShrinkFits(x: Addr, i: nat, want: Size)
      requires Valid() && i + 1 < |addrs| && x == addrs[i] + H + want && want + H <= Payload(addrs, i)
      ensures x !in addrs && x !in free && x != listHead
    {
      NewHeader(x, i);
    }

    method RightOf(a: Addr, ghost i: nat) returns (right: Addr)
      requires Linked() && i + 1 < |addrs| && addrs[i] == a
      ensures right == addrs[i + 1]
    {
      assert LinkedAt(addrs, next, prev, i);
      right := Get(next, a);
    }

    method RestSize(x: Addr, ghost i: nat) returns (n: int)
      requires Linked() && i + 1 < |addrs| && addrs[i] == x
      ensures n == Payload(addrs, i)
    {
      var right := RightOf(x, i);
      n := right - x - H;
    }

    lemma ShrunkHeaders(hs: set<Addr>, b: Blocks, i: nat, x: Addr)
      requires i + 1 < |b.addrs| && hs == HeaderSet(b.addrs) + {listHead} + {x}
      requires addrs == JoinNext(Cut(b, i + 1, x), i + 1).addrs
      ensures hs == Headers(b.addrs)
    {
      InsertMembers(b.addrs, i + 1, x);
      assert addrs[i + 1] == x;
    }
  
    /** The in-place part of `rt_memheap_realloc`. */
    method Resize(a: Addr, want: Size, ghost i: nat) returns (done: bool)
      requires Valid() && TailUsed(Abs().b) && i + 1 < |addrs| && addrs[i] == a && a in used
      requires want % 4 == 0 && MinAlloc <= want && !Wraps(Abs().b, i, want)
      modifies this, mem
      ensures Valid() && (Abs(), done) == MemHeapRuns.Resize(old(Abs()), size, i, want)
      ensures !done ==> mem[..] == old(mem[..])
      ensures OnlyHeaders(H, Headers(old(addrs)), start, old(mem[..]), mem[..])
    {
      hide Inv, Linked, OnlyHeaders, Headers, Grow, Shrink;
      var has := ItemSize(a, i);
      GuardFits(i);
      OnlySame(H, Headers(addrs), start, mem[..]);
      done := true;
      if want > has {
        done := false;
        var right := NextOf(a, i);
        if right !in used {
          var room := ItemSize(right, i + 1);
          if (room + has) % Word > (want + MinAlloc) % Word {
            GrowBlock(a, want, i);
            done := true;
          }
        }
      } else if want + H + MinAlloc < has {
        ShrinkBlock(a, want, i);
      }
    }

    method NextOf(a: Addr, ghost i: nat) returns (right: Addr)
      requires Valid() && i + 1 < |addrs| && addrs[i] == a
      ensures right == addrs[i + 1]
    {
      right := RightOf(a, i);
    }

    lemma GuardFits(i: nat)
      requires Valid() && i + 1 < |addrs|
      ensures addrs[i + 1] !in used ==> i + 2 < |addrs| && 0 <= Payload(addrs, i) + Payload(addrs, i + 1) < Word
      ensures start + size <= Word
    {
      PoolBounds(Abs().b, start, size, i);
    }

    /** `rt_memheap_free` of the block headed at `a`. */
    method FreeBlock(a: Addr)
      requires Valid() && Live(Abs().b, a)
      modifies this, mem
      ensures Valid() && Abs() == FreeAddr(old(Abs()), a)
      ensures OthersKept(H, start, old(Abs()).b.addrs, old(Abs()).b.used, Some(a), old(mem[..]), mem[..])
    {
      hide Inv, Linked, OnlyHeaders, OthersKept;
      ghost var h0, m0 := Abs(), mem[..];
      PoolArray();
      FreeAddrKeeps(h0, start, size, a);
      Free(a, Index(addrs, a));
      AllStay(h0.b, Abs().b, Some(a));
      Kept(h0, Some(a), m0, mem[..]);
    }

    /** The in-place part of `rt_memheap_realloc` on the block headed at `a`. */
    method ResizeBlock(a: Addr, want: Size) returns (done: bool)
      requires Valid() && TailUsed(Abs().b) && Live(Abs().b, a) && want % 4 == 0 && MinAlloc <= want
      requires !Wraps(Abs().b, Index(addrs, a), want)
      modifies this, mem
      ensures Valid() && (Abs(), done) == MemHeapRuns.Resize(old(Abs()), size, Index(old(addrs), a), want)
      ensures OthersKept(H, start, old(Abs()).b.addrs, old(Abs()).b.used, Some(a), old(mem[..]), mem[..])
      ensures Carried(H, start, old(mem[..]), mem[..], a, a, Min(SizeAt(H, old(addrs), a), want))
      ensures !done ==> Abs() == old(Abs()) && mem[..] == old(mem[..]) && SizeAt(H, addrs, a) < want
    {
      hide Inv, Linked, OnlyHeaders, OthersKept, Carried, Live, SizeAt, MemHeapRuns.Resize;
      ghost var h0, m0 := Abs(), mem[..];
      PoolArray();
      LiveIndex(h0.b, a);
      ResizeKeepsInv(h0, start, size, Index(addrs, a), want);
      done := Resize(a, want, Index(addrs, a));
      AllStay(h0.b, Abs().b, Some(a));
      Kept(h0, Some(a), m0, mem[..]);
      ResizedKept(h0, a, m0, mem[..], want, done);
    }

    lemma ResizedKept(h0: Heap, a: Addr, m0: seq<Byte>, m1: seq<Byte>, want: Size, done: bool)
      requires Inv(h0, start, size) && Inv(Abs(), start, size) && Live(h0.b, a)
      requires listHead >= start + size || listHead + H <= start
      requires OnlyHeaders(H, Headers(h0.b.addrs), start, m0, m1)
      requires if done then Live(Abs().b, a) && SizeAt(H, addrs, a) >= want
               else Abs() == h0 && SizeAt(H, h0.b.addrs, a) < want
      ensures Carried(H, start, m0, m1, a, a, Min(SizeAt(H, h0.b.addrs, a), want))
    {
      hide Inv, OnlyHeaders, Carried, SizeAt;
      PoolSpaced(h0);
      PoolSpaced(Abs());
      PayloadKept(H, h0.b.addrs, addrs, Headers(h0.b.addrs), start, size, m0, m1, a,
                  Min(SizeAt(H, h0.b.addrs, a), want));
    }

    /** The moving part of `rt_memheap_realloc`: allocate, copy, free. */
    method MoveBlock(a: Addr, want: Size) returns (r: Option<Addr>)
      requires Valid() && Live(Abs().b, a) && Rounded(want) == want && SizeAt(H, addrs, a) < want
      modifies this, mem
      ensures Valid() && (Abs(), r) == Move(old(Abs()), size, a, want)
      ensures OthersKept(H, start, old(Abs()).b.addrs, old(Abs()).b.used, Some(a), old(mem[..]), mem[..])
      ensures Carried(H, start, old(mem[..]), mem[..], a, if r.Some? then r.value else a, SizeAt(H, old(addrs), a))
    {
      hide Inv, Linked, OthersKept, Carried, LiveIn, SizeAt, MemHeapOps.Alloc, FreeAddr, Rounded, OthersStayIn;
      ghost var h0, m0 := Abs(), mem[..];
      ghost var n := SizeAt(H, addrs, a);
      PoolArray();
      MoveFits(h0, a, want);
      r := Alloc(want);
      ghost var h1, m1 := Abs(), mem[..];
      PoolSpaced(h1);
      KeptOne(H, start, h0.b.addrs, h0.b.used, None, a, n, m0, m1);
      if r.Some? {
        var bytes := BlockSize(a);
        ApartFrom(h1, a, r.value, n, want);
        CopyPayload(H, mem, start, a, r.value, bytes);
        ghost var m2 := mem[..];
        CopyKeeps(H, h0.b.addrs, h0.b.used, h1.b.addrs, h1.b.used, start, size, r.value, n, m1, m2);
        FreeBlock(a);
        ghost var m3 := mem[..];
        KeptOne(H, start, h1.b.addrs, h1.b.used, Some(a), r.value, n, m2, m3);
        CarriedTwice(H, start, m0, m1, m2, a, a, r.value, n);
        CarriedTwice(H, start, m0, m2, m3, a, r.value, r.value, n);
        KeptThree(H, start, h0.b.addrs, h0.b.used, h1.b.addrs, h1.b.used, a, m0, m1, m2, m3);
      } else {
        KeptMore(H, start, h0.b.addrs, h0.b.used, Some(a), m0, m1);
      }
    }

    method BlockSize(a: Addr) returns (n: nat)
      requires Valid() && Live(Abs().b, a)
      ensures n == SizeAt(H, addrs, a)
    {
      PoolSpaced(Abs());
      LiveApart(H, addrs, used, start, size, a, a);
      n := ItemSize(a, Index(addrs, a));
    }

    /** What the model of a move says of the heap after the allocation and after the free. */
    lemma MoveFits(h0: Heap, a: Addr, want: Size)
      requires Inv(h0, start, size) && Live(h0.b, a) && Rounded(want) == want
      ensures var (h1, q) := MemHeapOps.Alloc(h0, size, want);
              && Live(h1.b, a) && SizeAt(H, h1.b.addrs, a) == SizeAt(H, h0.b.addrs, a)
              && OthersStay(h0.b, h1.b, None)
              && (q.None? ==> h1 == h0)
              && (q.Some? ==> Live(h1.b, q.value) && SizeAt(H, h1.b.addrs, q.value) >= want && q.value !in h0.b.used
                              && q.value != a)
    {
      hide Inv, SizeAt, MemHeapOps.Alloc, Rounded;
      AllocLive(h0, start, size, want);
      assert Stays(h0.b, MemHeapOps.Alloc(h0, size, want).0.b, a);
      AllStay(h0.b, MemHeapOps.Alloc(h0, size, want).0.b, None);
    }

    lemma ApartFrom(h: Heap, a: Addr, q: Addr, n: int, want: Size)
      requires Inv(h, start, size) && Live(h.b, a) && Live(h.b, q) && a != q
      requires n == SizeAt(H, h.b.addrs, a) < want <= SizeAt(H, h.b.addrs, q)
      ensures 0 <= n && start <= a && start <= q && a + H + n <= start + size && q + H + n <= start + size
      ensures a + H + n <= q + H || q + H + n <= a + H
    {
      hide Inv, SizeAt, LiveIn;
      PoolSpaced(h);
      LiveApart(H, h.b.addrs, h.b.used, start, size, a, q);
      LiveApart(H, h.b.addrs, h.b.used, start, size, q, a);
    }

    /**
     `rt_memheap_realloc`: the first bytes, as many as both sizes have, are found at the block returned; on
     failure they are where they were; every other live block keeps all of its bytes.
     */
    method Realloc(at: Option<Addr>, newSize: Size) returns (r: Option<Addr>)
      requires Valid() && TailUsed(Abs().b) && (at.Some? ==> Live(Abs().b, at.value)) && Guarded(Abs(), at, newSize)
      modifies this, mem
      ensures Valid() && (Abs(), r) == MemHeapRuns.Realloc(old(Abs()), size, at, newSize)
      ensures OthersKept(H, start, old(Abs()).b.addrs, old(Abs()).b.used, at, old(mem[..]), mem[..])
      ensures at.Some? && r.Some? ==> Carried(H, start, old(mem[..]), mem[..], at.value, r.value,
                                              Min(SizeAt(H, old(addrs), at.value), Rounded(newSize)))
      ensures at.Some? && r.None? && newSize != 0 ==>
              Carried(H, start, old(mem[..]), mem[..], at.value, at.value, SizeAt(H, old(addrs), at.value))
    {
      hide Inv, Linked, OthersKept, Live, SizeAt, MemHeapRuns.Resize, MemHeapOps.Alloc, FreeAddr, Move, Rounded;
      var want := Rounded(newSize);
      RoundedFits(newSize);
      r := None;
      match at {
        case None =>
          SameKept(H, start, addrs, used, None, mem[..]);
          if newSize != 0 {
            r := Alloc(want);
          }
        case Some(a) =>
          if newSize == 0 {
            FreeBlock(a);
          } else {
            var done := ResizeBlock(a, want);
            if done {
              r := at;
            } else {
              r := MoveBlock(a, want);
            }
          }
      }
    }
  }
}
