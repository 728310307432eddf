/**
 How much memheap.c hands out and from where: the first block of the free list with room, cut to the size asked for
 whenever the rest can be a block of its own; in place, as much as was asked for wherever the block and the free one
 behind it have it; and the order in which free blocks are tried.
 */
module MemHeapFits {
  import opened Common
  import opened Waiting
  import opened BlockList
  import opened MemHeap
  import opened MemHeapOps
  import opened MemHeapRuns

  /** `a` is the first of the list with room for `want`. */
  ghost predicate FirstOf(addrs: seq<Addr>, free: seq<Addr>, want: int, a: Addr) {
    exists k :: 0 <= k < |free| && free[k] == a && SizeAt(H, addrs, a) >= want
                && forall j :: 0 <= j < k ==> SizeAt(H, addrs, free[j]) < want
  }

  lemma {:induction false} FirstFitIsFirst(addrs: seq<Addr>, free: seq<Addr>, size: nat)
    requires size > 0
    ensures FirstFit(addrs, free, size).Some? ==> FirstOf(addrs, free, size, FirstFit(addrs, free, size).value)
    decreases |free|
  {
    hide SizeAt;
    if free != [] {
      if SizeAt(H, addrs, free[0]) >= size {
        assert FirstOf(addrs, free, size, free[0]);
      } else {
        FirstFitIsFirst(addrs, free[1..], size);
        var r := FirstFit(addrs, free[1..], size);
        if r.Some? {
          var k :| 0 <= k < |free[1..]| && free[1..][k] == r.value && SizeAt(H, addrs, r.value) >= size
                   && forall j :: 0 <= j < k ==> SizeAt(H, addrs, free[1..][j]) < size;
          assert free[k + 1] == r.value;
          assert forall j :: 0 < j < k + 1 ==> free[j] == free[1..][j - 1];
        }
      }
    }
  }

  /** Of a block of `had` bytes a request for `want` gets exactly that, or all if the rest could not be a block. */
  function Cropped(had: int, want: int): int {
    if had >= want + H + MinAlloc then want else had
  }

  /** The block at `a` has been cropped to `want`, and what it lost is a free block right behind it. */
  ghost predicate CroppedAt(b: Blocks, b': Blocks, a: Addr, want: nat) {
    var had := SizeAt(H, b.addrs, a);
    && SizeAt(H, b'.addrs, a) == Cropped(had, want)
    && (had >= want + H + MinAlloc ==>
          var rest: Addr := a + H + want;
          && b'.free == [rest] + Remove(b.free, a) && rest in b'.addrs && SizeAt(H, b'.addrs, rest) == had - want - H)
    && (had < want + H + MinAlloc ==> b'.free == Remove(b.free, a) && b'.addrs == b.addrs)
  }

  lemma TakeCrops(h: Heap, start: Addr, size: nat, i: nat, want: nat)
    requires Inv(h, start, size) && i + 1 < |h.b.addrs| && h.b.addrs[i] !in h.b.used
    requires want % 4 == 0 && Payload(h.b.addrs, i) >= want
    ensures CroppedAt(h.b, Take(h, size, i, want).b, h.b.addrs[i], want)
    ensures Take(h, size, i, want).available
         == h.available - Cropped(Payload(h.b.addrs, i), want)
            - (if Payload(h.b.addrs, i) >= want + H + MinAlloc then H else 0)
  {
    hide Inv, Sound, Spaced, SizeAt, InsertAt, Remove;
    InvSound(h, start, size);
    TakeKeepsInv(h, start, size, i, want);
    InvSound(Take(h, size, i, want), start, size);
    SoundSpaced(h.b, start, size);
    SoundSpaced(Take(h, size, i, want).b, start, size);
    var b := h.b;
    SizeAtIndex(H, b.addrs, i);
    if Payload(b.addrs, i) >= want + H + MinAlloc {
      var r := Take(h, size, i, want).b.addrs;
      InsertedAround(b.addrs, i, b.addrs[i] + H + want);
      SizeAtIndex(H, r, i);
      SizeAtIndex(H, r, i + 1);
    }
  }

  /** An allocation takes the first free block with room, and of it no more than it has to. */
  lemma AllocCrops(h: Heap, start: Addr, size: nat, request: Size)
    requires Inv(h, start, size) && Alloc(h, size, request).1.Some?
    ensures var (h', r) := Alloc(h, size, request); var want := Rounded(request);
            && FirstOf(h.b.addrs, h.b.free, want, r.value)
            && CroppedAt(h.b, h'.b, r.value, want)
            && want <= SizeAt(H, h'.b.addrs, r.value) < want + H + MinAlloc
            && h'.available == h.available - SizeAt(H, h'.b.addrs, r.value)
                               - (if SizeAt(H, h.b.addrs, r.value) >= want + H + MinAlloc then H else 0)
  {
    hide Inv, Sound, Take, SizeAt, Rounded, FirstOf;
    var want := Rounded(request);
    var a := FirstFit(h.b.addrs, h.b.free, want).value;
    FirstFitIsFirst(h.b.addrs, h.b.free, want);
    InvSound(h, start, size);
    FreeAt(h.b, start, size, a);
    SoundSpaced(h.b, start, size);
    var i := Index(h.b.addrs, a);
    SizeAtIndex(H, h.b.addrs, i);
    TakeCrops(h, start, size, i, want);
  }

  lemma InvSound(h: Heap, start: Addr, size: nat)
    requires Inv(h, start, size)
    ensures Sound(h.b, start, size)
  {
  }

  // ---- In place ----

  /** A block can be resized where it is: big enough, or with the free block behind it more than big enough. */
  predicate RoomInPlace(b: Blocks, i: nat, want: Size)
    requires i + 1 < |b.addrs| && TailUsed(b)
  {
    || want <= Payload(b.addrs, i)
    || (b.addrs[i + 1] !in b.used && want + MinAlloc < Payload(b.addrs, i) + Payload(b.addrs, i + 1))
  }

  /** The rest behind the resized block is the first free block to be tried, with what was free there before. */
  ghost predicate RestFirst(b: Blocks, b': Blocks, i: nat, want: nat)
    requires i + 1 < |b.addrs|
  {
    var next := b.addrs[i + 1];
    b'.free == [b.addrs[i] + H + want] + if next in b.used then b.free else Remove(b.free, next)
  }

  /** In place, a block gets exactly what was asked for, but that it keeps a rest too small to be a block. */
  lemma ResizeCrops(h: Heap, start: Addr, size: nat, i: nat, want: Size)
    requires Inv(h, start, size) && TailUsed(h.b) && start + size <= Word && i + 1 < |h.b.addrs|
             && h.b.addrs[i] in h.b.used
    requires want % 4 == 0 && want >= MinAlloc && !Wraps(h.b, i, want)
    ensures var (h', done) := Resize(h, size, i, want); var a, had := h.b.addrs[i], Payload(h.b.addrs, i);
            && (done <==> RoomInPlace(h.b, i, want))
            && (done ==> SizeAt(H, h'.b.addrs, a) == if want <= had <= want + H + MinAlloc then had else want)
            && (done && !(want <= had <= want + H + MinAlloc) ==> RestFirst(h.b, h'.b, i, want))
  {
    hide Inv, FreeBytes, NoNeighbours, Sound, Spaced, Grow, Shrink, SizeAt, InsertAt, DropAt, Listed;
    var (h', done) := Resize(h, size, i, want);
    var had := Payload(h.b.addrs, i);
    InvSound(h, start, size);
    PoolBounds(h.b, start, size, i);
    SoundSpaced(h.b, start, size);
    SizeAtIndex(H, h.b.addrs, i);
    if want > had {
      if Grows(h.b, i, want) {
        GrowKeepsInv(h, start, size, i, want);
        InvSound(h', start, size);
        SoundSpaced(h'.b, start, size);
        SizeAtIndex(H, h'.b.addrs, i);
        GrowOrder(h, size, i, want);
      }
    } else if want + H + MinAlloc < had {
      ShrinkKeepsInv(h, start, size, i, want);
      DifferAt(h.b, start, size, i, i + 1);
      ShrinkOrder(h, i, want);
      InvSound(h', start, size);
      SoundSpaced(h'.b, start, size);
      SizeAtIndex(H, h'.b.addrs, i);
    }
  }

  lemma GrowOrder(h: Heap, size: nat, i: nat, want: nat)
    requires i + 2 < |h.b.addrs| && h.b.addrs[i + 1] !in h.b.used
    ensures RestFirst(h.b, Grow(h, size, i, want).b, i, want)
  {
  }

  lemma ShrinkOrder(h: Heap, i: nat, want: nat)
    requires i + 1 < |h.b.addrs| && (h.b.addrs[i + 1] in h.b.used || i + 2 < |h.b.addrs|)
    requires h.b.addrs[i] + H + want < h.b.addrs[i + 1]
    ensures RestFirst(h.b, Shrink(h, i, want).b, i, want)
  {
    var x := h.b.addrs[i] + H + want;
    assert ([x] + h.b.free)[1..] == h.b.free;
  }

  /** Reallocation succeeds in place where there is room, and otherwise exactly if a new block can be allocated. */
  lemma ReallocAnswers(h: Heap, start: Addr, size: nat, at: Option<Addr>, newSize: Size)
    requires Inv(h, start, size) && TailUsed(h.b) && start + size <= Word
    requires (at.Some? ==> Live(h.b, at.value)) && Guarded(h, at, newSize)
    ensures at.Some? ==> at.value in h.b.addrs && Index(h.b.addrs, at.value) + 1 < |h.b.addrs|
    ensures var r := Realloc(h, size, at, newSize).1; var want := Rounded(newSize);
            if newSize == 0 then r == None
            else if at.Some? && RoomInPlace(h.b, Index(h.b.addrs, at.value), want) then r == at
            else r == Alloc(h, size, want).1 && (r.Some? ==> r != at)
  {
    hide Inv, Resize, Alloc, FreeAddr, Rounded, RoomInPlace, Wraps;
    var want := Rounded(newSize);
    RoundedFits(newSize);
    if at.Some? {
      LiveIndex(h.b, at.value);
      if newSize != 0 {
        ResizeCrops(h, start, size, Index(h.b.addrs, at.value), want);
        if !RoomInPlace(h.b, Index(h.b.addrs, at.value), want) {
          AllocLive(h, start, size, want);
          assert Stays(h.b, Alloc(h, size, want).0.b, at.value);
        }
      }
    }
  }

  // ---- The order of the free list ----

  /**
   A block given back is the first to be tried, unless it has become part of the free block before it, which stays
   where it is in the list; the free block behind it leaves the list, and all others keep their order.
   */
  lemma FreeOrder(h: Heap, start: Addr, size: nat, i: nat)
    requires Inv(h, start, size) && i + 1 < |h.b.addrs| && h.b.addrs[i] in h.b.used
    ensures var b, a, next := h.b, h.b.addrs[i], h.b.addrs[i + 1];
            var rest := if next in b.used then b.free else Remove(b.free, next);
            Free(h, i).b.free == if i > 0 && b.addrs[i - 1] !in b.used then rest else [a] + rest
  {
    hide Inv, Sound, Spaced;
    InvSound(h, start, size);
    SoundSpaced(h.b, start, size);
    DifferAt(h.b, start, size, i, i + 1);
    var b := h.b;
    if i > 0 && b.addrs[i - 1] !in b.used {
      var b2 := Join(Release(b, b.addrs[i]), i);
      assert ([b.addrs[i]] + b.free)[1..] == b.free;
      assert b2.free == b.free && b2.addrs[i] == b.addrs[i + 1];
    } else {
      assert ([b.addrs[i]] + b.free)[1..] == b.free;
    }
  }
}
