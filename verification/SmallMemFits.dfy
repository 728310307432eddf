/**
 How much mem.c hands out: the block it finds, cut to the size asked for whenever the rest can be a block of its own;
 when it resizes in place and when it moves; and the peak that `max_mem` records.
 */
module SmallMemFits {
  import opened Common
  import opened BlockList
  import opened SmallMem
  import opened SmallMemRuns

  /** Of a block of `had` bytes a request for `want` gets exactly that, or all if the rest could not be a block. */
  function Cropped(had: int, want: int): int {
    if had >= want + G + MinSize then want else had
  }

  /** The block at `a` has been cropped to `want`, and what it lost is a free block right behind it. */
  ghost predicate CroppedAt(h: Heap, h': Heap, a: Addr, want: nat) {
    var had, rest: Addr := SizeAt(G, h.addrs, a), a + G + want;
    && SizeAt(G, h'.addrs, a) == Cropped(had, want)
    && (had >= want + G + MinSize ==>
          rest in h'.addrs && rest !in h'.used && SizeAt(G, h'.addrs, rest) == had - want - G)
    && (had < want + G + MinSize ==> h'.addrs == h.addrs)
    && h'.usedMem == h.usedMem + G + Cropped(had, want)
  }

  lemma TakeFields(h: Heap, i: nat, want: nat)
    requires i + 1 < |h.addrs|
    ensures var a, had := h.addrs[i], h.addrs[i + 1] - h.addrs[i] - G;
            var h' := Take(h, i, want);
            && h'.used == h.used + {a} && h'.usedMem == h.usedMem + G + Cropped(had, want)
            && h'.addrs == if had >= want + G + MinSize then InsertAt(h.addrs, i + 1, a + G + want) else h.addrs
  {
    hide InsertAt, NextFree;
  }

  lemma FitsBlock(h: Heap, i: nat, want: nat)
    requires Fits(h.addrs, h.used, i, want)
    ensures i + 1 < |h.addrs| && h.addrs[i] !in h.used && h.addrs[i + 1] - h.addrs[i] - G >= want
  {
  }

  lemma TakeCrops(h: Heap, size: nat, i: nat, want: nat)
    requires Inv(h, size) && Fits(h.addrs, h.used, i, want) && want % 4 == 0
    ensures CroppedAt(h, Take(h, i, want), h.addrs[i], want)
  {
    hide Inv, Spaced, SizeAt, InsertAt, Take, Lowest, FreeOrEnd, Cropped, Fits;
    FitsBlock(h, i, want);
    var h' := Take(h, i, want);
    InvPieces(h, size);
    TakeKeepsInv(h, size, i, want);
    InvPieces(h', size);
    TakeFields(h, i, want);
    SizeAtIndex(G, h.addrs, i);
    CroppedIs(h.addrs[i + 1] - h.addrs[i] - G, want);
    if h.addrs[i + 1] - h.addrs[i] - G >= want + G + MinSize {
      var x: Addr := h.addrs[i] + G + want;
      InsertedAround(h.addrs, i, x);
      SizeAtIndex(G, h'.addrs, i);
      SizeAtIndex(G, h'.addrs, i + 1);
      NewFree(h, size, i, x);
      assert x != h.addrs[i];
    }
  }

  lemma CroppedIs(had: int, want: int)
    ensures Cropped(had, want) == if had >= want + G + MinSize then want else had
  {
  }

  lemma NewFree(h: Heap, size: nat, i: nat, x: Addr)
    requires Inv(h, size) && i + 1 < |h.addrs| && h.addrs[i] + G <= x && x + G <= h.addrs[i + 1]
    ensures x !in h.used
  {
    SpacedMember(G, h.addrs, i + 1, x);
  }

  /** The block that `rt_malloc` hands out is no bigger than it has to be. */
  lemma MallocCrops(h: Heap, size: nat, request: Size)
    requires Inv(h, size) && h.lfree in h.addrs && Malloc(h, size, request).1.Some?
    ensures var (h', r) := Malloc(h, size, request); var want := Want(request);
            && CroppedAt(h, h', r.value, want)
            && want <= SizeAt(G, h'.addrs, r.value) < want + G + MinSize
  {
    hide Inv, Take, SizeAt, CroppedAt, Search, Aligned4;
    var want := Want(request);
    WantAligned(request);
    var i := Search(h.addrs, h.used, Index(h.addrs, h.lfree), size - want, want).value;
    InvPieces(h, size);
    TakeCrops(h, size, i, want);
    FitsSize(h, i, want);
    CroppedBounds(h, Take(h, i, want), h.addrs[i], want);
  }

  lemma WantAligned(request: Size)
    ensures Want(request) % 4 == 0 && Want(request) >= MinSize
    ensures request <= 0xffff_fffc ==>
              request <= Want(request) && (Want(request) < request + 4 || Want(request) == MinSize)
  {
  }

  lemma FitsSize(h: Heap, i: nat, want: nat)
    requires Spaced(G, h.addrs) && Fits(h.addrs, h.used, i, want)
    ensures SizeAt(G, h.addrs, h.addrs[i]) >= want
  {
    SizeAtIndex(G, h.addrs, i);
  }

  lemma CroppedBounds(h: Heap, h': Heap, a: Addr, want: nat)
    requires CroppedAt(h, h', a, want) && SizeAt(G, h.addrs, a) >= want
    ensures want <= SizeAt(G, h'.addrs, a) < want + G + MinSize
  {
  }

  /** In place a block only ever shrinks, to exactly what is asked for, and only if the rest is more than a block. */
  predicate StaysInPlace(h: Heap, a: Addr, newSize: nat) {
    SizeAt(G, h.addrs, a) == newSize || newSize + G + MinSize < SizeAt(G, h.addrs, a)
  }

  lemma ResizeAnswers(h: Heap, size: nat, a: Addr, newSize: nat)
    requires Inv(h, size) && Live(h, a) && newSize % 4 == 0
    ensures var (h', done) := Resize(h, a, newSize);
            && (done <==> StaysInPlace(h, a, newSize))
            && (done ==> SizeAt(G, h'.addrs, a) == newSize
                         && h'.usedMem == h.usedMem - (SizeAt(G, h.addrs, a) - newSize))
  {
    hide Inv, Live, SizeAt, Stays;
    ResizeKeeps(h, size, a, newSize);
    ShrinkUse(h, a, newSize);
  }

  lemma ShrinkUse(h: Heap, a: Addr, newSize: nat)
    requires Live(h, a)
    ensures Shrink(h, Index(h.addrs, a), newSize).usedMem == h.usedMem - (SizeAt(G, h.addrs, a) - newSize)
  {
  }

  /** Reallocation stays in place where it can, and otherwise succeeds exactly if a new block can be allocated. */
  lemma ReallocAnswers(h: Heap, size: nat, at: Option<Addr>, request: Size)
    requires Inv(h, size) && h.lfree in h.addrs && (at.Some? ==> Live(h, at.value))
    ensures var r := Realloc(h, size, at, request).1; var newSize := Aligned4(request);
            if newSize > size then r == None
            else if at.Some? && StaysInPlace(h, at.value, newSize) then r == at
            else r == Malloc(h, size, newSize).1 && (r.Some? ==> r != at)
  {
    hide Inv, Resize, Malloc, FreeAddr, Aligned4, StaysInPlace, Live, Stays, SizeAt;
    var newSize := Aligned4(request);
    if at.Some? && newSize <= size {
      ResizeAnswers(h, size, at.value, newSize);
      MallocLive(h, size, newSize);
      LiveUsed(h, at.value);
      assert Stays(h, Malloc(h, size, newSize).0, at.value);
      StillLive(h, Malloc(h, size, newSize).0, at.value);
    }
  }

  lemma StillLive(h: Heap, h': Heap, a: Addr)
    requires Live(h, a) && Stays(h, h', a)
    ensures Live(h', a)
  {
  }

  // ---- The peak ----

  lemma StepMark(h: Heap, size: nat, call: Call)
    requires Inv(h, size) && Legal(h, call)
    ensures Step(h, size, call).maxMem == Max(h.maxMem, Step(h, size, call).usedMem)
  {
  }

  /** The greatest use at any time of a run. */
  ghost function Peak(h: Heap, size: nat, calls: seq<Call>): int
    requires LegalRun(h, size, calls)
    decreases |calls|
  {
    if calls == [] then h.usedMem else Max(h.usedMem, Peak(Step(h, size, calls[0]), size, calls[1..]))
  }

  /** `max_mem` is the greatest use there has been. */
  lemma {:induction false} RunPeak(h: Heap, size: nat, calls: seq<Call>)
    requires Inv(h, size) && LegalRun(h, size, calls)
    ensures Run(h, size, calls).maxMem == Max(h.maxMem, Peak(h, size, calls))
    decreases |calls|
  {
    hide Step, Legal, Inv;
    UseBelowMark(h, size);
    if calls != [] {
      StepKeepsInv(h, size, calls[0]);
      StepMark(h, size, calls[0]);
      RunPeak(Step(h, size, calls[0]), size, calls[1..]);
    }
  }

  lemma UseBelowMark(h: Heap, size: nat)
    requires Inv(h, size)
    ensures h.usedMem <= h.maxMem
  {
  }
}
