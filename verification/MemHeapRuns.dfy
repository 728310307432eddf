/**
 Reallocation, and whole runs: every locked region of alloc, free and realloc is one step, so runs of any
 number of threads are sequences of these steps. A reallocation resizes in place where it can and else takes a
 new block, copies and frees the old one. From initialisation on, any run of calls with live blocks as arguments
 keeps the structure, and `max_used_size` is the largest number of bytes in use, headers included, that there
 ever was. Growing in place has a guard computed in 32 bits.
 */
module MemHeapRuns {
  import opened Common
  import opened BlockList
  import opened MemHeap
  import opened MemHeapOps

  /** The largest rounded request for which the guard of in-place growth does not wrap around. */
  const MaxWant: int := 0xffff_fff0

  /** The list ends in the used tail header, so a free block always has a block after it. */
  predicate TailUsed(b: Blocks) {
    b.addrs != [] && b.addrs[|b.addrs| - 1] in b.used
  }

  /** The guard of in-place growth, in 32-bit arithmetic: the next block keeps more than the minimum. */
  predicate Grows(b: Blocks, i: nat, want: Size)
    requires i + 1 < |b.addrs| && TailUsed(b)
  {
    && b.addrs[i + 1] !in b.used
    && (Payload(b.addrs, i + 1) + Payload(b.addrs, i)) % Word > (want + MinAlloc) % Word
  }

  /** The guard passes although the request is so large that its right-hand side wraps around. */
  predicate Wraps(b: Blocks, i: nat, want: Size)
    requires i + 1 < |b.addrs| && TailUsed(b)
  {
    want > MaxWant && Grows(b, i, want)
  }

  /** The part of a reallocation that leaves the block in place, and whether it succeeds. */
  function Resize(h: Heap, size: nat, i: nat, want: Size): (Heap, bool)
    requires i + 1 < |h.b.addrs| && TailUsed(h.b)
  {
    var has := Payload(h.b.addrs, i);
    if want > has then
      if Grows(h.b, i, want) then (Grow(h, size, i, want), true) else (h, false)
    else if want + H + MinAlloc >= has then (h, true)
    else (Shrink(h, i, want), true)
  }

  lemma PoolBounds(b: Blocks, start: Addr, size: nat, i: nat)
    requires Sound(b, start, size) && i + 1 < |b.addrs| && start + size <= Word
    ensures 0 <= Payload(b.addrs, i) < Word
    ensures b.addrs[i + 1] !in b.used ==> i + 2 < |b.addrs| && 0 <= Payload(b.addrs, i) + Payload(b.addrs, i + 1) < Word
  {
    hide Aligned, Owned, Listed;
    DifferAt(b, start, size, i, i + 1);
    if i + 2 < |b.addrs| { DifferAt(b, start, size, i + 1, i + 2); }
    LastAbove(b, start, size, i + 1);
    if i + 2 < |b.addrs| { LastAbove(b, start, size, i + 2); }
  }

  lemma LastAbove(b: Blocks, start: Addr, size: nat, i: nat)
    requires Sound(b, start, size) && i < |b.addrs|
    ensures start <= b.addrs[i] <= start + size - H
  {
    var n := |b.addrs| - 1;
    if i < n { DifferAt(b, start, size, i, n); }
    if i > 0 { DifferAt(b, start, size, 0, i); }
  }

  /** Resizing in place keeps the invariant and every other block; on failure nothing changes. */
  lemma ResizeKeepsInv(h: Heap, start: Addr, size: nat, i: nat, want: Size)
    requires Inv(h, start, size) && TailUsed(h.b) && start + size <= Word && i + 1 < |h.b.addrs|
             && h.b.addrs[i] in h.b.used
    requires want % 4 == 0 && want >= MinAlloc && !Wraps(h.b, i, want)
    ensures var (h', done) := Resize(h, size, i, want); var a := h.b.addrs[i];
            && Inv(h', start, size)
            && (done ==> Live(h'.b, a) && SizeAt(H, h'.b.addrs, a) >= want)
            && (!done ==> h' == h && SizeAt(H, h.b.addrs, a) < want)
            && forall u :: u != a ==> Stays(h.b, h'.b, u)
  {
    hide FreeBytes, Sound, NoNeighbours, Grow, Shrink, SizeAt, Live, Stays;
    var (h', done) := Resize(h, size, i, want);
    PoolBounds(h.b, start, size, i);
    SoundSpaced(h.b, start, size);
    HeadLive(h.b, i);
    forall u | u != h.b.addrs[i] ensures Stays(h.b, h.b, u) {
      KeptStays(h.b, u);
    }
    if want > Payload(h.b.addrs, i) {
      if Grows(h.b, i, want) {
        GrowKeepsInv(h, start, size, i, want);
        SoundSpaced(h'.b, start, size);
        KeepsUsed(h, size, i, want);
        HeadLive(h'.b, i);
      }
    } else if want + H + MinAlloc < Payload(h.b.addrs, i) {
      ShrinkKeepsInv(h, start, size, i, want);
      SoundSpaced(h'.b, start, size);
      KeepsUsed(h, size, i, want);
      HeadLive(h'.b, i);
    }
  }

  lemma HeadLive(b: Blocks, i: nat)
    requires Spaced(H, b.addrs) && i + 1 < |b.addrs| && b.addrs[i] in b.used
    ensures Live(b, b.addrs[i]) && SizeAt(H, b.addrs, b.addrs[i]) == Payload(b.addrs, i)
  {
    SizeAtIndex(H, b.addrs, i);
  }

  lemma KeepsUsed(h: Heap, size: nat, i: nat, want: Size)
    requires i + 1 < |h.b.addrs| && TailUsed(h.b)
    ensures Resize(h, size, i, want).0.b.used == h.b.used
  {
  }

  /** Beyond that size the guard passes by wrap-around, and the new header lands outside the pool. */
  lemma GrowMisfits(h: Heap, start: Addr, size: nat, i: nat, want: Size)
    requires Inv(h, start, size) && TailUsed(h.b) && start + size <= Word && i + 1 < |h.b.addrs|
             && h.b.addrs[i] in h.b.used
    requires want % 4 == 0 && Wraps(h.b, i, want)
    ensures !Inv(Resize(h, size, i, want).0, start, size)
  {
    hide FreeBytes, NoNeighbours, Aligned, Owned, Listed;
    PoolBounds(h.b, start, size, i);
    var (h', done) := Resize(h, size, i, want);
    var x := h.b.addrs[i] + H + want;
    assert h'.b.addrs[i + 1] == x;
    LastAbove(h.b, start, size, i);
    var next: nat := i + 1;
    if Inv(h', start, size) {
      LastAbove(h'.b, start, size, next);
      assert false;
    }
  }

  /** Resizing in place keeps the structure if and only if the guard does not pass by wrap-around. */
  lemma ResizeIffNoWrap(h: Heap, start: Addr, size: nat, i: nat, want: Size)
    requires Inv(h, start, size) && TailUsed(h.b) && start + size <= Word && i + 1 < |h.b.addrs|
             && h.b.addrs[i] in h.b.used
    requires want % 4 == 0 && want >= MinAlloc
    ensures Inv(Resize(h, size, i, want).0, start, size) <==> !Wraps(h.b, i, want)
  {
    hide Inv, Resize, Stays;
    if Wraps(h.b, i, want) {
      GrowMisfits(h, start, size, i, want);
    } else {
      ResizeKeepsInv(h, start, size, i, want);
    }
  }

  /** A used block of 12 bytes before a free one of 40, asked to grow to 0xfffffff4. */
  lemma WrapWitness()
    ensures var h := Heap(Blocks([0, 36, 100], {0, 100}, [36]), 40, 84);
            Inv(h, 0, 124) && TailUsed(h.b) && Wraps(h.b, 0, 0xffff_fff4)
            && !Inv(Resize(h, 124, 0, 0xffff_fff4).0, 0, 124)
  {
    var h := Heap(Blocks([0, 36, 100], {0, 100}, [36]), 40, 84);
    assert h.b.addrs[1..] == [36, 100] && h.b.addrs[2..] == [100] && h.b.addrs[1..][1..] == [100];
    assert FreeBytes(H, [100], h.b.used) == 0 && FreeBytes(H, [36, 100], h.b.used) == 40;
    assert FreeBytes(H, h.b.addrs, h.b.used) == 40;
    assert Inv(h, 0, 124);
    GrowMisfits(h, 0, 124, 0, 0xffff_fff4);
  }

  // ---- rt_memheap_realloc ----

  /** `rt_memheap_free` of the block headed at `a`. */
  function FreeAddr(h: Heap, a: Addr): Heap
    requires Live(h.b, a)
  {
    Free(h, Index(h.b.addrs, a))
  }

  /** `rt_memheap_realloc` of the block headed at `at`: in place if that works, else allocate, copy and free. */
  function Realloc(h: Heap, size: nat, at: Option<Addr>, newSize: Size): (Heap, Option<Addr>)
    requires TailUsed(h.b) && (at.Some? ==> Live(h.b, at.value))
  {
    var want := Rounded(newSize);
    match at
    case None => if newSize == 0 then (h, None) else Alloc(h, size, want)
    case Some(a) =>
      if newSize == 0 then (FreeAddr(h, a), None)
      else
        var (h1, done) := Resize(h, size, Index(h.b.addrs, a), want);
        if done then (h1, at) else Move(h, size, a, want)
  }

  /** The block moves: allocate, copy the payload, free. */
  function Move(h: Heap, size: nat, a: Addr, want: Size): (Heap, Option<Addr>) {
    var (h1, q) := Alloc(h, size, want);
    if q.Some? && Live(h1.b, a) then (FreeAddr(h1, a), q) else (h1, None)
  }

  lemma FreeAddrKeeps(h: Heap, start: Addr, size: nat, a: Addr)
    requires Inv(h, start, size) && Live(h.b, a)
    ensures Inv(FreeAddr(h, a), start, size) && a !in FreeAddr(h, a).b.used
    ensures forall u :: u != a ==> Stays(h.b, FreeAddr(h, a).b, u)
  {
    hide FreeBytes, Sound, NoNeighbours, Stays;
    var i := Index(h.b.addrs, a);
    FreeKeepsInv(h, start, size, i);
    var h' := FreeAddr(h, a);
    forall u | u != a ensures Stays(h.b, h'.b, u) {
      FreeStays(h, start, size, i, u);
    }
  }

  /** Every block but the one at `at` is still in use with the same payload, if it was. */
  ghost predicate OthersStay(b: Blocks, b': Blocks, at: Option<Addr>) {
    OthersStayIn(H, b.addrs, b.used, b'.addrs, b'.used, at)
  }

  lemma AllStay(b: Blocks, b': Blocks, at: Option<Addr>)
    requires forall u: Addr :: Some(u) != at ==> Stays(b, b', u)
    ensures OthersStay(b, b', at)
  {
    hide StaysIn;
    forall u: Addr | Some(u) != at ensures StaysIn(H, b.addrs, b.used, b'.addrs, b'.used, u) {
      assert Stays(b, b', u);
    }
  }

  /** What a reallocation leaves: failure changes nothing, success a live block of the size asked for. */
  predicate Served(h: Heap, h': Heap, at: Option<Addr>, r: Option<Addr>, newSize: Size) {
    && (r.None? && newSize != 0 ==> h' == h)
    && (r.Some? ==> Live(h'.b, r.value) && SizeAt(H, h'.b.addrs, r.value) >= Rounded(newSize))
    && (r.Some? && r != at ==> r.value !in h.b.used)
    && (r != at && at.Some? && (r.Some? || newSize == 0) ==> at.value !in h'.b.used)
  }

  /** The growth guard does not pass by wrap-around on this reallocation. */
  predicate Guarded(h: Heap, at: Option<Addr>, newSize: Size)
    requires TailUsed(h.b) && (at.Some? ==> Live(h.b, at.value))
  {
    at.Some? && newSize != 0 ==> !Wraps(h.b, Index(h.b.addrs, at.value), Rounded(newSize))
  }

  /**
   Reallocation keeps the invariant and every other live block in place. Success leaves a live block of the
   size asked for: the same one, or one that was free before, with the old one freed. Failure changes nothing.
   */
  lemma ReallocKeepsInv(h: Heap, start: Addr, size: nat, at: Option<Addr>, newSize: Size)
    requires Inv(h, start, size) && TailUsed(h.b) && start + size <= Word
    requires (at.Some? ==> Live(h.b, at.value)) && Guarded(h, at, newSize)
    ensures var (h', r) := Realloc(h, size, at, newSize);
            && Inv(h', start, size)
            && Served(h, h', at, r, newSize)
            && OthersStay(h.b, h'.b, at)
  {
    hide Inv, Resize, Alloc, FreeAddr, Move, Stays, SizeAt, Rounded, OthersStay, Wraps;
    var want := Rounded(newSize);
    RoundedFits(newSize);
    match at {
      case None =>
        if newSize == 0 { KeptAll(h.b); } else { AllocLive(h, start, size, want); }
      case Some(a) =>
        LiveIndex(h.b, a);
        if newSize == 0 {
          FreeAddrKeeps(h, start, size, a);
        } else {
          ResizeKeepsInv(h, start, size, Index(h.b.addrs, a), want);
          if !Resize(h, size, Index(h.b.addrs, a), want).1 {
            MoveKeeps(h, start, size, a, want);
          }
        }
    }
    AllStay(h.b, Realloc(h, size, at, newSize).0.b, at);
  }

  /** Reallocation keeps the structure exactly if its guard does not pass by wrap-around. */
  lemma ReallocIffGuarded(h: Heap, start: Addr, size: nat, at: Option<Addr>, newSize: Size)
    requires Inv(h, start, size) && TailUsed(h.b) && start + size <= Word
    requires at.Some? ==> Live(h.b, at.value)
    ensures Inv(Realloc(h, size, at, newSize).0, start, size) <==> Guarded(h, at, newSize)
  {
    hide Inv, Resize, Rounded, Wraps, OthersStay, Served, FreeAddr, Move;
    if Guarded(h, at, newSize) {
      ReallocKeepsInv(h, start, size, at, newSize);
    } else {
      RoundedFits(newSize);
      LiveIndex(h.b, at.value);
      ResizeIffNoWrap(h, start, size, Index(h.b.addrs, at.value), Rounded(newSize));
      WrapsSucceeds(h, start, size, Index(h.b.addrs, at.value), Rounded(newSize));
    }
  }

  lemma WrapsSucceeds(h: Heap, start: Addr, size: nat, i: nat, want: Size)
    requires Inv(h, start, size) && start + size <= Word
    requires i + 1 < |h.b.addrs| && TailUsed(h.b) && Wraps(h.b, i, want)
    ensures Resize(h, size, i, want).1
  {
    hide FreeBytes, NoNeighbours, Aligned, Owned, Listed;
    LastAbove(h.b, start, size, i);
    LastAbove(h.b, start, size, i + 1);
  }

  lemma KeptAll(b: Blocks)
    ensures forall u :: Stays(b, b, u)
  {
  }

  lemma RoundedFits(size: Size)
    ensures Rounded(Rounded(size)) == Rounded(size)
    ensures Rounded(size) % 4 == 0 && Rounded(size) >= MinAlloc
  {
  }

  lemma LiveIndex(b: Blocks, a: Addr)
    requires Live(b, a)
    ensures a in b.addrs && Index(b.addrs, a) + 1 < |b.addrs| && b.addrs[Index(b.addrs, a)] == a && a in b.used
  {
  }

  /** An allocated block was free before and is live now. */
  lemma AllocLive(h: Heap, start: Addr, size: nat, want: Size)
    requires Inv(h, start, size) && Rounded(want) == want
    ensures var (h', r) := Alloc(h, size, want);
            && Inv(h', start, size)
            && (forall u :: Stays(h.b, h'.b, u))
            && (r.None? ==> h' == h)
            && (r.Some? ==> Live(h'.b, r.value) && SizeAt(H, h'.b.addrs, r.value) >= want && r.value !in h.b.used)
  {
    hide FreeBytes, Sound, NoNeighbours, Take, Alloc, Stays, SizeAt;
    AllocKeepsInv(h, start, size, want);
    var (h', r) := Alloc(h, size, want);
    forall u ensures Stays(h.b, h'.b, u) {
      AllocStays(h, start, size, want, u);
    }
    if r.Some? {
      FreeAt(h.b, start, size, r.value);
      SizedIsLive(h'.b, r.value, want);
    }
  }

  lemma SizedIsLive(b: Blocks, a: Addr, want: Size)
    requires a in b.used && SizeAt(H, b.addrs, a) >= want > 0
    ensures Live(b, a)
  {
  }

  lemma MoveKeeps(h: Heap, start: Addr, size: nat, a: Addr, want: Size)
    requires Inv(h, start, size) && Live(h.b, a) && Rounded(want) == want
    ensures var (h', r) := Move(h, size, a, want);
            && Inv(h', start, size)
            && (r.None? ==> h' == h)
            && (r.Some? ==> Live(h'.b, r.value) && SizeAt(H, h'.b.addrs, r.value) >= want
                            && r.value !in h.b.used && a !in h'.b.used)
            && forall u :: u != a ==> Stays(h.b, h'.b, u)
  {
    hide Inv, Alloc, FreeAddr, SizeAt, Rounded;
    var (h1, q) := Alloc(h, size, want);
    AllocLive(h, start, size, want);
    assert Stays(h.b, h1.b, a);
    if q.Some? {
      LiveIndex(h.b, a);
      FreeAddrKeeps(h1, start, size, a);
      var h2 := FreeAddr(h1, a);
      assert Stays(h1.b, h2.b, q.value);
      forall u | u != a ensures Stays(h.b, h2.b, u) {
        assert Stays(h.b, h1.b, u) && Stays(h1.b, h2.b, u);
      }
    }
  }

  // ---- Runs ----

  /** `rt_memheap_init`: one free block and the used tail. */
  function InitHeap(start: Addr, size: nat): Heap
    requires size >= 2 * H
  {
    var tail := start + size - H;
    Heap(Blocks([start, tail], {tail}, [start]), size - 2 * H, 2 * H)
  }

  lemma InitInv(start: Addr, size: nat)
    requires size >= 2 * H && size % 4 == 0
    ensures Inv(InitHeap(start, size), start, size)
    ensures TailUsed(InitHeap(start, size).b)
  {
    var b := InitHeap(start, size).b;
    assert b.addrs[1..] == [start + size - H];
    assert FreeBytes(H, b.addrs[1..], b.used) == 0;
  }

  /** The locked regions; a resize is the in-place part of a reallocation. */
  datatype Call = AllocCall(request: Size) | FreeCall(a: Addr) | ResizeCall(a: Addr, newSize: Size)

  /** What the code asserts of a pointer passed to it, and a growth guard that does not wrap around. */
  predicate Legal(h: Heap, call: Call)
    requires TailUsed(h.b)
  {
    match call
    case AllocCall(_) => true
    case FreeCall(a) => Live(h.b, a)
    case ResizeCall(a, newSize) => Live(h.b, a) && !Wraps(h.b, Index(h.b.addrs, a), Rounded(newSize))
  }

  function Step(h: Heap, size: nat, call: Call): Heap
    requires TailUsed(h.b) && Legal(h, call)
  {
    match call
    case AllocCall(request) => Alloc(h, size, request).0
    case FreeCall(a) => FreeAddr(h, a)
    case ResizeCall(a, newSize) => Resize(h, size, Index(h.b.addrs, a), Rounded(newSize)).0
  }

  lemma TailIsUsed(h: Heap, start: Addr, size: nat)
    requires Inv(h, start, size)
    ensures TailUsed(h.b)
  {
  }

  /** Each locked region keeps the invariant, and moves the high-water mark exactly as far as the use goes. */
  lemma StepKeepsInv(h: Heap, start: Addr, size: nat, call: Call)
    requires Inv(h, start, size) && TailUsed(h.b) && start + size <= Word && Legal(h, call)
    ensures Inv(Step(h, size, call), start, size)
    ensures Step(h, size, call).maxUsed == Mark(h.maxUsed, size, Step(h, size, call).available)
  {
    hide Alloc, FreeAddr, Resize, FreeBytes, Sound, NoNeighbours, Rounded;
    match call
    case AllocCall(request) =>
      AllocKeepsInv(h, start, size, request);
      AllocMark(h, start, size, request);
    case FreeCall(a) =>
      FreeAddrKeeps(h, start, size, a);
      FreeMark(h, start, size, a);
    case ResizeCall(a, newSize) =>
      LiveIndex(h.b, a);
      RoundedFits(newSize);
      ResizeKeepsInv(h, start, size, Index(h.b.addrs, a), Rounded(newSize));
      ResizeMark(h, start, size, Index(h.b.addrs, a), Rounded(newSize));
  }

  lemma AllocMark(h: Heap, start: Addr, size: nat, request: Size)
    requires Inv(h, start, size)
    ensures var h' := Alloc(h, size, request).0; h'.maxUsed == Mark(h.maxUsed, size, h'.available)
  {
    hide FreeBytes, Sound, NoNeighbours, Rounded;
  }

  lemma FreeMark(h: Heap, start: Addr, size: nat, a: Addr)
    requires Inv(h, start, size) && Live(h.b, a)
    ensures var h' := FreeAddr(h, a); h'.maxUsed == Mark(h.maxUsed, size, h'.available)
  {
    hide FreeBytes, NoNeighbours, Aligned, Owned, Listed;
    DifferAt(h.b, start, size, Index(h.b.addrs, a), Index(h.b.addrs, a) + 1);
  }

  lemma ResizeMark(h: Heap, start: Addr, size: nat, i: nat, want: Size)
    requires Inv(h, start, size) && TailUsed(h.b) && start + size <= Word && i + 1 < |h.b.addrs|
             && h.b.addrs[i] in h.b.used
    requires want % 4 == 0 && !Wraps(h.b, i, want)
    ensures var h' := Resize(h, size, i, want).0; h'.maxUsed == Mark(h.maxUsed, size, h'.available)
  {
    hide FreeBytes, NoNeighbours, Aligned, Owned, Listed;
    PoolBounds(h.b, start, size, i);
  }

  ghost predicate LegalRun(h: Heap, start: Addr, size: nat, calls: seq<Call>)
    requires Inv(h, start, size) && start + size <= Word
    decreases |calls|
  {
    calls == []
    || (TailIsUsed(h, start, size);
        Legal(h, calls[0])
        && (StepKeepsInv(h, start, size, calls[0]);
            LegalRun(Step(h, size, calls[0]), start, size, calls[1..])))
  }

  ghost function Run(h: Heap, start: Addr, size: nat, calls: seq<Call>): Heap
    requires Inv(h, start, size) && start + size <= Word && LegalRun(h, start, size, calls)
    decreases |calls|
  {
    if calls == [] then h
    else
      TailIsUsed(h, start, size);
      StepKeepsInv(h, start, size, calls[0]);
      Run(Step(h, size, calls[0]), start, size, calls[1..])
  }

  /** The most bytes not available at any point of a run. */
  ghost function Peak(h: Heap, start: Addr, size: nat, calls: seq<Call>): int
    requires Inv(h, start, size) && start + size <= Word && LegalRun(h, start, size, calls)
    decreases |calls|
  {
    var now := size - h.available;
    if calls == [] then now
    else
      TailIsUsed(h, start, size);
      StepKeepsInv(h, start, size, calls[0]);
      var later := Peak(Step(h, size, calls[0]), start, size, calls[1..]);
      if later > now then later else now
  }

  lemma {:induction false} RunKeepsInv(h: Heap, start: Addr, size: nat, calls: seq<Call>)
    requires Inv(h, start, size) && start + size <= Word && LegalRun(h, start, size, calls)
    ensures var h' := Run(h, start, size, calls); var peak := Peak(h, start, size, calls);
            && Inv(h', start, size)
            && h'.maxUsed == if peak > h.maxUsed then peak else h.maxUsed
    decreases |calls|
  {
    hide Step, FreeBytes, Sound, NoNeighbours, Legal;
    if calls != [] {
      TailIsUsed(h, start, size);
      StepKeepsInv(h, start, size, calls[0]);
      RunKeepsInv(Step(h, size, calls[0]), start, size, calls[1..]);
    }
  }

  /** From `rt_memheap_init`, every run keeps the structure, and `max_used_size` is its peak use. */
  lemma AnyRun(start: Addr, size: nat, calls: seq<Call>)
    requires size >= 2 * H && size % 4 == 0 && start + size <= Word
    requires (InitInv(start, size); LegalRun(InitHeap(start, size), start, size, calls))
    ensures (InitInv(start, size);
             var h := Run(InitHeap(start, size), start, size, calls);
             Inv(h, start, size) && h.maxUsed == Peak(InitHeap(start, size), start, size, calls))
  {
    InitInv(start, size);
    RunKeepsInv(InitHeap(start, size), start, size, calls);
  }
}
