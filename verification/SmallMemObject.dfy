/**
 The small-memory heap in place: the `next` and `prev` offsets and the used mark of every header, `lfree`, the
 statistics, and the bytes of the heap, which every store to a header field overwrites. Each method is proved to
 be the function of the same name on values, so all that modules SmallMem and SmallMemRuns prove holds of it;
 what is said here beyond that is about the bytes. As in the code, `heap_end` has a `prev` that nobody keeps up
 to date or reads.
 */
module SmallMemObjects {
  import opened Common
  import opened RtList
  import opened BlockList
  import opened PoolBytes
  import opened SmallMem
  import opened SmallMemRuns

  /** Header `i` points to its neighbours; the first one's `prev` and the last one's `next` to itself. */
  predicate ChainedAt(addrs: seq<Addr>, next: Fields, prev: Fields, i: nat)
    requires i < |addrs|
  {
    && Get(next, addrs[i]) == (if i + 1 < |addrs| then addrs[i + 1] else addrs[i])
    && (i + 1 < |addrs| ==> Get(prev, addrs[i]) == if i > 0 then addrs[i - 1] else addrs[i])
  }

  /** The `prev` of the last header is not kept. */
  ghost predicate Chained(addrs: seq<Addr>, next: Fields, prev: Fields) {
    Spaced(G, addrs) && forall i :: 0 <= i < |addrs| ==> ChainedAt(addrs, next, prev, i)
  }

  lemma ChainInsert(addrs: seq<Addr>, next: Fields, prev: Fields, i: nat, x: Addr)
    requires Chained(addrs, next, prev) && 0 < i < |addrs| && Spaced(G, InsertAt(addrs, i, x)) && x !in addrs
    ensures var a, succ := addrs[i - 1], addrs[i];
            var prev1 := prev[x := a];
            Chained(InsertAt(addrs, i, x), next[x := succ][a := x], if i + 1 < |addrs| then prev1[succ := x] else prev1)
  {
    var r, a, succ := InsertAt(addrs, i, x), addrs[i - 1], addrs[i];
    var next' := next[x := succ][a := x];
    var prev' := if i + 1 < |addrs| then prev[x := a][succ := x] else prev[x := a];
    forall k | 0 <= k < |r| ensures ChainedAt(r, next', prev', k) {
      if k != i { InsertedAt(addrs, next, prev, i, x, if k < i then k else k - 1); }
    }
  }

  lemma InsertedAt(addrs: seq<Addr>, next: Fields, prev: Fields, i: nat, x: Addr, k: nat)
    requires Chained(addrs, next, prev) && 0 < i < |addrs| && x !in addrs && k < |addrs|
    ensures var a, succ := addrs[i - 1], addrs[i];
            var prev1 := prev[x := a];
            ChainedAt(InsertAt(addrs, i, x), next[x := succ][a := x],
                      if i + 1 < |addrs| then prev1[succ := x] else prev1,
                      if k < i then k else k + 1)
  {
    hide Spaced, InsertAt;
    assert ChainedAt(addrs, next, prev, k) && addrs[k] in addrs;
    Ascending(addrs, k, i - 1);
    Ascending(addrs, k, i);
  }

  lemma ChainDrop(addrs: seq<Addr>, next: Fields, prev: Fields, i: nat)
    requires Chained(addrs, next, prev) && 0 < i < |addrs| - 1
    ensures Chained(DropAt(addrs, i), next[addrs[i - 1] := addrs[i + 1]], prev[addrs[i + 1] := addrs[i - 1]])
  {
    var r := DropAt(addrs, i);
    SpacedDrop(G, addrs, i);
    var next', prev' := next[addrs[i - 1] := addrs[i + 1]], prev[addrs[i + 1] := addrs[i - 1]];
    forall k | 0 <= k < |r| ensures ChainedAt(r, next', prev', k) {
      var k' := if k < i then k else k + 1;
      assert ChainedAt(addrs, next, prev, k');
      Ascending(addrs, k', i - 1);
      Ascending(addrs, k', i + 1);
    }
  }

  lemma Ascending(addrs: seq<Addr>, i: nat, k: nat)
    requires Spaced(G, addrs) && i < |addrs| && k < |addrs|
    ensures i < k <==> addrs[i] < addrs[k]
    ensures i == k <==> addrs[i] == addrs[k]
  {
    if i < k { assert addrs[i] + G <= addrs[k]; }
    if k < i { assert addrs[k] + G <= addrs[i]; }
  }

  class SmallMemObject {
    /** `mem_size_aligned`. */
    const size: nat
    const mem: array<Byte>
    var next: Fields
    var prev: Fields
    var used: set<Addr>
    var lfree: Addr
    var usedMem: int
    var maxMem: int
    ghost var addrs: seq<Addr>

    ghost function Abs(): Heap
      reads this
    {
      Heap(addrs, used, lfree, usedMem, maxMem)
    }

    ghost predicate Linked()
      reads this`next, this`prev, this`addrs
    {
      Chained(addrs, next, prev) && mem.Length == size + 2 * G
    }

    ghost predicate Valid()
      reads this
    {
      Linked() && Inv(Abs(), size)
    }

    /** `rt_system_heap_init`, once the memory size has been worked out from the addresses. */
    constructor (size: nat)
      requires size >= MinSize && size + 2 * G <= Word && size % 4 == 0
      ensures Valid() && Abs() == InitHeap(size) && this.size == size && fresh(mem)
    {
      this.size := size;
      mem := new Byte[size + 2 * G];
      next := map[0 := size + G, size + G := size + G];
      prev := map[0 := 0, size + G := size + G];
      used, lfree, usedMem, maxMem := {size + G}, 0, 0, 0;
      addrs := [0, size + G];
      new;
      InitInv(size);
    }

    /** Writes a header at `x` between `a` and the one after it; the `prev` of `heap_end` is left alone. */
    method InsertHeader(a: Addr, x: Addr, ghost i: nat, ghost hs: set<Addr>)
      requires Linked() && 0 < i < |addrs| && addrs[i - 1] == a && addrs[|addrs| - 1] == size + G
      requires Spaced(G, InsertAt(addrs, i, x)) && x !in addrs && HeaderSet(addrs) <= hs && x in hs
      modifies this`next, this`prev, this`addrs, mem
      ensures Linked() && addrs == InsertAt(old(addrs), i, x)
      ensures OnlyHeaders(G, hs, 0, old(mem[..]), mem[..])
    {
      hide OnlyHeaders, InsertAt, Spaced;
      ChainInsert(addrs, next, prev, i, x);
      assert ChainedAt(addrs, next, prev, i - 1);
      Ascending(addrs, i, |addrs| - 1);
      var succ := Get(next, a);
      next := next[x := succ];
      prev := prev[x := a];
      next := next[a := x];
      if succ != size + G {
        prev := prev[succ := x];
      }
      assert a in addrs && succ in addrs;
      addrs := InsertAt(addrs, i, x);
      StoreHeaders(G, mem, 0, x, a, succ, hs);
    }

    /** The block before `x` takes over its successor. */
    method RemoveHeader(a: Addr, x: Addr, ghost i: nat, ghost hs: set<Addr>)
      requires Linked() && 0 < i < |addrs| - 1 && addrs[i - 1] == a && addrs[i] == x && HeaderSet(addrs) <= hs
      modifies this`next, this`prev, this`addrs, mem
      ensures Linked() && addrs == DropAt(old(addrs), i) && HeaderSet(addrs) <= hs
      ensures OnlyHeaders(G, hs, 0, old(mem[..]), mem[..])
    {
      hide OnlyHeaders, Spaced;
      ChainDrop(addrs, next, prev, i);
      assert ChainedAt(addrs, next, prev, i);
      var succ := Get(next, x);
      next := next[a := succ];
      prev := prev[succ := a];
      assert a in addrs && succ in addrs;
      addrs := DropAt(addrs, i);
      StoreHeaders(G, mem, 0, a, succ, succ, hs);
    }

    method NextOf(a: Addr, ghost i: nat) returns (succ: Addr)
      requires Linked() && i < |addrs| && addrs[i] == a
      ensures succ == if i + 1 < |addrs| then addrs[i + 1] else a
    {
      assert ChainedAt(addrs, next, prev, i);
      succ := Get(next, a);
    }

    lemma TakeEnds(h: Heap, i: nat, want: nat)
      requires i + 1 < |h.addrs|
      ensures var r := Take(h, i, want).addrs; i < |r| && r[i] == h.addrs[i] && r[|r| - 1] == h.addrs[|h.addrs| - 1]
    {
      TakeMembers(h, i, want);
    }

    /** The search loop of `rt_malloc`. */
    method FindFit(want: nat) returns (ptr: Addr, found: bool, ghost k: nat)
      requires Valid()
      ensures Search(addrs, used, Index(addrs, lfree), size - want, want) == if found then Some(k) else None
      ensures found ==> k < |addrs| && addrs[k] == ptr
    {
      hide Inv, Spaced, Index, Search, Linked, Fits;
      Bounds();
      ptr := lfree;
      found := false;
      k := Index(addrs, lfree);
      ghost var first := Search(addrs, used, k, size - want, want);
      while ptr < size - want && !found
        invariant 0 <= k < |addrs| && addrs[k] == ptr
        invariant Search(addrs, used, k, size - want, want) == first
        invariant found ==> Fits(addrs, used, k, want) && ptr < size - want
        decreases |addrs| - k, !found
      {
        Ascending(addrs, k, |addrs| - 1);
        SearchHere(addrs, used, k, size - want, want);
        var succ := NextOf(ptr, k);
        if ptr !in used && succ - (ptr + G) >= want {
          found := true;
        } else {
          ptr := succ;
          k := k + 1;
        }
      }
      SearchHere(addrs, used, k, size - want, want);
    }

    lemma Bounds()
      requires Valid()
      ensures Spaced(G, addrs) && lfree in addrs && addrs[|addrs| - 1] == size + G
    {
    }

    lemma SearchHere(addrs: seq<Addr>, used: set<Addr>, k: nat, limit: int, want: nat)
      requires k < |addrs|
      ensures Fits(addrs, used, k, want)
              <==> k + 1 < |addrs| && addrs[k] !in used && addrs[k + 1] - addrs[k] - G >= want
      ensures addrs[k] >= limit ==> Search(addrs, used, k, limit, want) == None
      ensures addrs[k] < limit && Fits(addrs, used, k, want) ==> Search(addrs, used, k, limit, want) == Some(k)
      ensures addrs[k] < limit && !Fits(addrs, used, k, want) ==>
        Search(addrs, used, k, limit, want) == Search(addrs, used, k + 1, limit, want)
    {
    }

    lemma Ends()
      requires Valid()
      ensures Spaced(G, addrs) && lfree in addrs && |addrs| >= 2 && addrs[0] == 0 && addrs[|addrs| - 1] == size + G
      ensures size + G in used && forall u :: u in used ==> u in addrs
    {
    }

    /** Moves `lfree` on to the next unused header, or `heap_end`. */
    method AdvanceLfree(ghost i: nat)
      requires Linked() && i < |addrs| && addrs[i] == lfree && addrs[|addrs| - 1] == size + G
      modifies this`lfree
      ensures lfree == NextFree(addrs, used, i)
    {
      ghost var k := i;
      while lfree in used && lfree != size + G
        invariant i <= k < |addrs| && addrs[k] == lfree
        invariant NextFree(addrs, used, k) == NextFree(addrs, used, i)
        decreases |addrs| - k
      {
        Ascending(addrs, k, |addrs| - 1);
        lfree := NextOf(lfree, k);
        k := k + 1;
      }
      Ascending(addrs, k, |addrs| - 1);
    }
  
    /** The headers of a state and of the one before it: nothing else is ever overwritten. */
    ghost function Headers(was: seq<Addr>): set<Addr>
      reads this`addrs
    {
      HeaderSet(was) + HeaderSet(addrs)
    }

    /** The found block keeps what was asked for, if the rest can hold a block. */
    method Carve(a: Addr, want: nat, ghost i: nat)
      requires Valid() && Fits(addrs, used, i, want) && addrs[i] == a && want % 4 == 0
      modifies this`next, this`prev, this`addrs, this`usedMem, mem
      ensures Linked() && addrs == Take(old(Abs()), i, want).addrs && usedMem == Take(old(Abs()), i, want).usedMem
      ensures OnlyHeaders(G, Headers(old(addrs)), 0, old(mem[..]), mem[..])
    {
      hide Inv, Linked, OnlyHeaders, InsertAt, HeaderSet, Spaced, NextFree;
      ghost var h0 := Abs();
      Ends();
      var succ := NextOf(a, i);
      var x: Addr := a + G + want;
      ghost var hs := HeaderSet(addrs) + {x};
      OnlySame(G, HeaderSet(addrs), 0, mem[..]);
      if succ - (a + G) >= want + G + MinSize {
        NewHeader(h0, i, x);
        InsertHeader(a, x, i + 1, hs);
        InsertedHeaders(hs, h0.addrs, i + 1, x);
        usedMem := usedMem + (want + G);
      } else {
        usedMem := usedMem + (succ - a);
        SameHeaders();
      }
    }

    /** The found block goes to the caller, and `lfree` moves on if it was that block. */
    method TakeBlock(a: Addr, want: nat, ghost i: nat)
      requires Valid() && Fits(addrs, used, i, want) && addrs[i] == a && want % 4 == 0
      modifies this, mem
      ensures Valid() && Abs() == Take(old(Abs()), i, want)
      ensures OnlyHeaders(G, Headers(old(addrs)), 0, old(mem[..]), mem[..])
    {
      hide Inv, Linked, OnlyHeaders, InsertAt, HeaderSet, Spaced, NextFree;
      ghost var h0 := Abs();
      ghost var m0 := mem[..];
      Ends();
      TakeKeepsInv(h0, size, i, want);
      TakeEnds(h0, i, want);
      Carve(a, want, i);
      used := used + {a};
      maxMem := Max(maxMem, usedMem);
      ghost var m1 := mem[..];
      InHeaders(Headers(h0.addrs), h0.addrs, i);
      StoreHeader(G, mem, 0, a, Headers(h0.addrs));
      OnlyTwice(G, Headers(h0.addrs), 0, m0, m1, mem[..]);
      if a == lfree {
        AdvanceLfree(i);
      }
    }

    lemma SameHeaders()
      ensures Headers(addrs) == HeaderSet(addrs)
    {
    }

    lemma InHeaders(hs: set<Addr>, was: seq<Addr>, i: nat)
      requires i < |was| && HeaderSet(was) <= hs
      ensures was[i] in hs
    {
    }

    lemma InsertedHeaders(hs: set<Addr>, was: seq<Addr>, i: nat, x: Addr)
      requires hs == HeaderSet(was) + {x} && i <= |was| && addrs == InsertAt(was, i, x)
      ensures hs == Headers(was)
    {
      InsertMembers(was, i, x);
    }

    lemma NewHeader(h: Heap, i: nat, x: Addr)
      requires Inv(h, size) && i + 1 < |h.addrs| && h.addrs[i] + G <= x && x + G <= h.addrs[i + 1]
      ensures x !in h.addrs && Spaced(G, InsertAt(h.addrs, i + 1, x))
    {
      SpacedMember(G, h.addrs, i + 1, x);
      SpacedInsert(G, h.addrs, i + 1, x);
    }

    /** `plug_holes` of the free block at `a`. */
    method PlugBlock(a: Addr, ghost i: nat, ghost hs: set<Addr>)
      requires Linked() && i + 1 < |addrs| && addrs[i] == a && HeaderSet(addrs) <= hs
      requires addrs[|addrs| - 1] == size + G && size + G in used
      modifies this`next, this`prev, this`addrs, this`lfree, mem
      ensures Linked() && Abs() == PlugHoles(old(Abs()), i)
      ensures OnlyHeaders(G, hs, 0, old(mem[..]), mem[..])
    {
      hide Linked, OnlyHeaders, DropAt, HeaderSet;
      ghost var m0 := mem[..];
      OnlySame(G, hs, 0, m0);
      var succ := NextOf(a, i);
      if succ !in used && succ != size + G {
        if lfree == succ { lfree := a; }
        RemoveHeader(a, succ, i + 1, hs);
      }
      ghost var m1 := mem[..];
      var before := PrevOf(a, i);
      PrevDiffers(i);
      if before != a && before !in used {
        if lfree == a { lfree := before; }
        RemoveHeader(before, a, i, hs);
        OnlyTwice(G, hs, 0, m0, m1, mem[..]);
      }
    }

    method PrevOf(a: Addr, ghost i: nat) returns (before: Addr)
      requires Linked() && i + 1 < |addrs| && addrs[i] == a
      ensures before == if i > 0 then addrs[i - 1] else a
    {
      assert ChainedAt(addrs, next, prev, i);
      before := Get(prev, a);
    }

    lemma PrevDiffers(i: nat)
      requires Linked() && i < |addrs|
      ensures i > 0 ==> addrs[i - 1] != addrs[i]
    {
      if i > 0 { Ascending(addrs, i - 1, i); }
    }

    /** `rt_free` of the block headed at `a`. */
    method FreeAt(a: Addr, ghost i: nat)
      requires Valid() && i + 1 < |addrs| && addrs[i] == a && a in used
      modifies this, mem
      ensures Valid() && Abs() == Free(old(Abs()), i)
      ensures OnlyHeaders(G, Headers(old(addrs)), 0, old(mem[..]), mem[..])
    {
      hide Inv, Linked, OnlyHeaders, HeaderSet, PlugHoles, Spaced;
      ghost var h0, m0 := Abs(), mem[..];
      ghost var hs := HeaderSet(addrs);
      Ends();
      FreeKeepsInv(h0, size, i);
      InHeaders(hs, addrs, i);
      NotEnd(h0, i);
      used := used - {a};
      StoreHeader(G, mem, 0, a, hs);
      ghost var m1 := mem[..];
      if a < lfree { lfree := a; }
      var succ := NextOf(a, i);
      usedMem := usedMem - (succ - a);
      PlugBlock(a, i, hs);
      OnlyTwice(G, hs, 0, m0, m1, mem[..]);
      PlugMembers(h0, i);
      FewerHeaders(h0.addrs);
    }

    lemma NotEnd(h: Heap, i: nat)
      requires Spaced(G, h.addrs) && i + 1 < |h.addrs|
      ensures h.addrs[i] != h.addrs[|h.addrs| - 1]
    {
      Ascending(h.addrs, i, |h.addrs| - 1);
    }

    lemma PlugMembers(h: Heap, i: nat)
      requires i + 1 < |h.addrs|
      ensures forall u :: u in Free(h, i).addrs ==> u in h.addrs
    {
    }

    lemma FewerHeaders(was: seq<Addr>)
      requires forall u :: u in addrs ==> u in was
      ensures Headers(was) == HeaderSet(was)
    {
    }

    /** The splitting part of `rt_realloc`. */
    method ShrinkBlock(a: Addr, newSize: nat, ghost i: nat)
      requires Valid() && i + 1 < |addrs| && addrs[i] == a && a in used
      requires newSize % 4 == 0 && newSize + G <= addrs[i + 1] - addrs[i] - G
      modifies this, mem
      ensures Valid() && Abs() == Shrink(old(Abs()), i, newSize)
      ensures OnlyHeaders(G, Headers(old(addrs)), 0, old(mem[..]), mem[..])
    {
      hide Inv, Linked, OnlyHeaders, InsertAt, HeaderSet, PlugHoles, Spaced;
      ghost var h0, m0 := Abs(), mem[..];
      Ends();
      ShrinkKeepsInv(h0, size, i, newSize);
      ShrinkShape(h0, size, i, newSize);
      var succ := NextOf(a, i);
      var x: Addr := a + G + newSize;
      ghost var hs := HeaderSet(addrs) + {x};
      usedMem := usedMem - ((succ - a - G) - newSize);
      NewHeader(h0, i, x);
      InsertHeader(a, x, i + 1, hs);
      ghost var m1 := mem[..];
      InsertedMembers(h0.addrs, i + 1, x, hs);
      PlugBlock(x, i + 1, hs);
      OnlyTwice(G, hs, 0, m0, m1, mem[..]);
      ShrunkHeaders(hs, h0.addrs, x);
    }

    lemma InsertedMembers(was: seq<Addr>, i: nat, x: Addr, hs: set<Addr>)
      requires i < |was| && hs == HeaderSet(was) + {x}
      ensures HeaderSet(InsertAt(was, i, x)) <= hs
      ensures var r := InsertAt(was, i, x); r[|r| - 1] == was[|was| - 1]
    {
      InsertMembers(was, i, x);
    }

    lemma ShrunkHeaders(hs: set<Addr>, was: seq<Addr>, x: Addr)
      requires hs == HeaderSet(was) + {x} && x in addrs && forall u :: u in addrs ==> u in was || u == x
      ensures hs == Headers(was)
    {
    }
  
    // ---- The calls, and what they keep of the payloads ----

    lemma HeapSpaced(h: Heap)
      requires Inv(h, size)
      ensures Spaced(G, h.addrs) && Pooled(h.addrs, 0, size + 2 * G)
    {
      forall a | a in h.addrs ensures 0 <= a <= size + 2 * G {
        Ascending(h.addrs, Index(h.addrs, a), |h.addrs| - 1);
      }
    }

    /** A step that only stores to headers leaves the payload of every block that stays. */
    lemma Kept(h0: Heap, at: Option<Addr>, m0: seq<Byte>, m1: seq<Byte>)
      requires Inv(h0, size) && Inv(Abs(), size)
      requires OnlyHeaders(G, Headers(h0.addrs), 0, m0, m1)
      requires forall u: Addr :: Some(u) != at ==> Stays(h0, Abs(), u)
      ensures OthersKept(G, 0, h0.addrs, h0.used, at, m0, m1)
    {
      hide Inv, OnlyHeaders, StaysIn;
      HeapSpaced(h0);
      HeapSpaced(Abs());
      AllStay(h0, Abs(), at);
      StoresKeep(G, h0.addrs, h0.used, addrs, used, at, Headers(h0.addrs), 0, size + 2 * G, m0, m1);
    }

    lemma AllStay(h: Heap, h': Heap, at: Option<Addr>)
      requires forall u: Addr :: Some(u) != at ==> Stays(h, h', u)
      ensures OthersStayIn(G, h.addrs, h.used, h'.addrs, h'.used, at)
    {
      hide StaysIn;
      forall u: Addr | Some(u) != at ensures StaysIn(G, h.addrs, h.used, h'.addrs, h'.used, u) {
        assert Stays(h, h', u);
      }
    }

    /** `rt_malloc`: the header of the block whose payload is handed out. */
    method Malloc(request: Size) returns (r: Option<Addr>)
      requires Valid() && lfree in addrs
      modifies this, mem
      ensures Valid() && (Abs(), r) == SmallMem.Malloc(old(Abs()), size, request)
      ensures OthersKept(G, 0, old(addrs), old(used), None, old(mem[..]), mem[..])
    {
      hide Inv, Linked, Take, OnlyHeaders, OthersKept, Stays, Aligned4, Search;
      ghost var h0, m0 := Abs(), mem[..];
      SameKept(G, 0, addrs, used, None, m0);
      var aligned := Aligned4(request);
      r := None;
      if request != 0 && aligned <= size {
        var want := Max(aligned, MinSize);
        var ptr, found, k := FindFit(want);
        if found {
          MallocLive(h0, size, request);
          TakeBlock(ptr, want, k);
          Kept(h0, None, m0, mem[..]);
          r := Some(ptr);
        }
      }
    }

    /** `rt_free` of the block headed at `a`. */
    method FreeBlock(a: Addr)
      requires Valid() && Live(Abs(), a)
      modifies this, mem
      ensures Valid() && Abs() == FreeAddr(old(Abs()), a)
      ensures OthersKept(G, 0, old(addrs), old(used), Some(a), old(mem[..]), mem[..])
    {
      hide Inv, Linked, OnlyHeaders, OthersKept, Stays;
      ghost var h0, m0 := Abs(), mem[..];
      FreeAddrKeeps(h0, size, a);
      FreeAt(a, Index(addrs, a));
      Kept(h0, Some(a), m0, mem[..]);
    }

    method BlockSize(a: Addr) returns (n: nat)
      requires Valid() && Live(Abs(), a)
      ensures n == SizeAt(G, addrs, a)
    {
      hide Inv, Linked;
      HeapSpaced(Abs());
      LiveApart(G, addrs, used, 0, size + 2 * G, a, a);
      var succ := NextOf(a, Index(addrs, a));
      n := succ - a - G;
    }

    /** The in-place part of `rt_realloc`. */
    method ResizeBlock(a: Addr, newSize: nat) returns (done: bool)
      requires Valid() && Live(Abs(), a) && newSize % 4 == 0
      modifies this, mem
      ensures Valid() && (Abs(), done) == Resize(old(Abs()), a, newSize)
      ensures OthersKept(G, 0, old(addrs), old(used), Some(a), old(mem[..]), mem[..])
      ensures Carried(G, 0, old(mem[..]), mem[..], a, a, Min(SizeAt(G, old(addrs), a), newSize))
      ensures !done ==> Abs() == old(Abs()) && mem[..] == old(mem[..])
    {
      hide Inv, Linked, OnlyHeaders, OthersKept, Stays, Shrink, Carried;
      ghost var h0, m0 := Abs(), mem[..];
      ResizeKeeps(h0, size, a, newSize);
      SameKept(G, 0, addrs, used, Some(a), m0);
      ghost var n := Min(SizeAt(G, addrs, a), newSize);
      CarriedSelf(m0, a, n);
      var payload := BlockSize(a);
      done := payload == newSize;
      if newSize + G + MinSize < payload {
        ShrinkBlock(a, newSize, Index(addrs, a));
        Kept(h0, Some(a), m0, mem[..]);
        HeapSpaced(h0);
        HeapSpaced(Abs());
        PayloadKept(G, h0.addrs, addrs, Headers(h0.addrs), 0, size + 2 * G, m0, mem[..], a, n);
        done := true;
      }
    }

    lemma CarriedSelf(m: seq<Byte>, a: Addr, n: int)
      ensures Carried(G, 0, m, m, a, a, n)
    {
    }

    /** The moving part of `rt_realloc`: allocate, copy as many bytes as both sizes have, free. */
    method MoveBlock(a: Addr, newSize: Size) returns (r: Option<Addr>)
      requires Valid() && lfree in addrs && Live(Abs(), a) && newSize % 4 == 0
      modifies this, mem
      ensures Valid() && (Abs(), r) == Move(old(Abs()), size, a, newSize)
      ensures OthersKept(G, 0, old(addrs), old(used), Some(a), old(mem[..]), mem[..])
      ensures var n := Min(SizeAt(G, old(addrs), a), newSize);
              Carried(G, 0, old(mem[..]), mem[..], a,
                      if r.Some? then r.value else a, if r.Some? then n else SizeAt(G, old(addrs), a))
    {
      hide Inv, Linked, OthersKept, Carried, LiveIn, SizeAt, SmallMem.Malloc, FreeAddr, OthersStayIn;
      ghost var h0, m0 := Abs(), mem[..];
      ghost var n := Min(SizeAt(G, addrs, a), newSize);
      MoveFits(h0, a, newSize);
      WholeHeap();
      r := Malloc(newSize);
      ghost var h1, m1 := Abs(), mem[..];
      HeapSpaced(h1);
      KeptOne(G, 0, h0.addrs, h0.used, None, a, n, m0, m1);
      KeptOne(G, 0, h0.addrs, h0.used, None, a, SizeAt(G, h0.addrs, a), m0, m1);
      if r.Some? {
        var bytes := BlockSize(a);
        ApartFrom(h1, a, r.value, n);
        CopyPayload(G, mem, 0, a, r.value, Min(bytes, newSize));
        ghost var m2 := mem[..];
        CopyKeeps(G, h0.addrs, h0.used, h1.addrs, h1.used, 0, size + 2 * G, r.value, n, m1, m2);
        FreeBlock(a);
        ghost var m3 := mem[..];
        KeptOne(G, 0, h1.addrs, h1.used, Some(a), r.value, n, m2, m3);
        CarriedTwice(G, 0, m0, m1, m2, a, a, r.value, n);
        CarriedTwice(G, 0, m0, m2, m3, a, r.value, r.value, n);
        KeptThree(G, 0, h0.addrs, h0.used, h1.addrs, h1.used, a, m0, m1, m2, m3);
      } else {
        KeptMore(G, 0, h0.addrs, h0.used, Some(a), m0, m1);
      }
    }

    lemma WholeHeap()
      requires Linked()
      ensures mem.Length == size + 2 * G
    {
    }

    lemma MoveFits(h0: Heap, a: Addr, newSize: Size)
      requires Inv(h0, size) && h0.lfree in h0.addrs && Live(h0, a) && newSize % 4 == 0
      ensures var (h1, q) := SmallMem.Malloc(h0, size, newSize);
              && Live(h1, a) && SizeAt(G, h1.addrs, a) == SizeAt(G, h0.addrs, a)
              && OthersStayIn(G, h0.addrs, h0.used, h1.addrs, h1.used, None)
              && (q.None? ==> h1 == h0)
              && (q.Some? ==>
                    Live(h1, q.value) && SizeAt(G, h1.addrs, q.value) >= newSize && q.value !in h0.used && q.value != a)
    {
      hide Inv, SizeAt, SmallMem.Malloc;
      MallocLive(h0, size, newSize);
      WantFits(newSize);
      AllStay(h0, SmallMem.Malloc(h0, size, newSize).0, None);
      assert Stays(h0, SmallMem.Malloc(h0, size, newSize).0, a);
    }

    lemma ApartFrom(h: Heap, a: Addr, q: Addr, n: int)
      requires Inv(h, size) && Live(h, a) && Live(h, q) && a != q
      requires n <= SizeAt(G, h.addrs, a) && n <= SizeAt(G, h.addrs, q)
      ensures a + G + n <= size + 2 * G && q + G + n <= size + 2 * G
      ensures a + G + n <= q + G || q + G + n <= a + G
    {
      hide Inv, SizeAt, LiveIn;
      HeapSpaced(h);
      LiveApart(G, h.addrs, h.used, 0, size + 2 * G, a, q);
      LiveApart(G, h.addrs, h.used, 0, size + 2 * G, q, a);
    }

    /**
     `rt_realloc`: the first bytes, as many as both sizes have, are found at the block returned; on failure
     the whole old payload is where it was; every other live block keeps all of its bytes.
     */
    method Realloc(at: Option<Addr>, request: Size) returns (r: Option<Addr>)
      requires Valid() && lfree in addrs && (at.Some? ==> Live(Abs(), at.value))
      modifies this, mem
      ensures Valid() && (Abs(), r) == SmallMemRuns.Realloc(old(Abs()), size, at, request)
      ensures OthersKept(G, 0, old(addrs), old(used), at, old(mem[..]), mem[..])
      ensures at.Some? && r.Some? ==> Carried(G, 0, old(mem[..]), mem[..], at.value, r.value,
                                              Min(SizeAt(G, old(addrs), at.value), Aligned4(request)))
      ensures at.Some? && r.None? ==>
              Carried(G, 0, old(mem[..]), mem[..], at.value, at.value, SizeAt(G, old(addrs), at.value))
    {
      hide Inv, Linked, OthersKept, LiveIn, SizeAt, Resize, SmallMem.Malloc, Move, Aligned4;
      SameKept(G, 0, addrs, used, at, mem[..]);
      var newSize := Aligned4(request);
      r := None;
      if newSize <= size {
        match at {
          case None => r := Malloc(newSize);
          case Some(a) =>
            var done := ResizeBlock(a, newSize);
            if done {
              r := at;
            } else {
              r := MoveBlock(a, newSize);
            }
        }
      }
    }
  }
}
