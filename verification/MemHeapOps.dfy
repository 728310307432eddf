/**
 Allocation, freeing and in-place reallocation in memheap.c, composed of the steps of module MemHeap, and what
 each does to the other blocks. Merging looks to the left first and then to the right, as the code does, and the
 guards are computed in 32 bits, as the code computes them. Every operation is shown to keep the structure, with
 no two free neighbours and with `available_size` equal to the free payload bytes, and to leave every block it was
 not called for at its address with its size.
 */
module MemHeapOps {
  import opened Common
  import opened Waiting
  import opened BlockList
  import opened MemHeap

  /** The size served for a request: rounded up to a multiple of four in 32-bit arithmetic, at least the minimum. */
  function Rounded(size: Size): (r: Size)
    ensures r >= MinAlloc && r % 4 == 0
    ensures size <= 0xffff_fffc ==> size <= r && (r < size + 4 || r == MinAlloc)
    ensures size >= MinAlloc && size % 4 == 0 ==> r == size
  {
    var aligned := (size + 3) % Word / 4 * 4;
    if aligned < MinAlloc then MinAlloc else aligned
  }

  /** The first block of the free list with room for `size`. */
  function FirstFit(addrs: seq<Addr>, free: seq<Addr>, size: nat): (r: Option<Addr>)
    requires size > 0
    ensures r.Some? ==> r.value in free && r.value in addrs && Index(addrs, r.value) + 1 < |addrs|
                        && Payload(addrs, Index(addrs, r.value)) >= size
    ensures r.None? ==> forall a :: a in free ==> SizeAt(H, addrs, a) < size
    decreases |free|
  {
    if free == [] then None
    else if SizeAt(H, addrs, free[0]) >= size then Some(free[0])
    else FirstFit(addrs, free[1..], size)
  }

  /** The high-water mark of the bytes not available. */
  function Mark(maxUsed: int, size: nat, available: int): (r: int)
    ensures r >= maxUsed && r >= size - available && (r == maxUsed || r == size - available)
  {
    if size - available > maxUsed then size - available else maxUsed
  }

  /** The free block at position `i` is handed out, split when the rest is big enough for a block. */
  function Take(h: Heap, size: nat, i: nat, want: nat): Heap
    requires i + 1 < |h.b.addrs|
  {
    var a := h.b.addrs[i];
    var b := Use(h.b, a);
    if Payload(h.b.addrs, i) >= want + H + MinAlloc then
      var available := h.available - want - H;
      Heap(Cut(b, i + 1, a + H + want), available, Mark(h.maxUsed, size, available))
    else
      var available := h.available - Payload(h.b.addrs, i);
      Heap(b, available, Mark(h.maxUsed, size, available))
  }

  /** `rt_memheap_alloc`: the heap after, and the header of the block handed out, whose payload starts `H` above. */
  function Alloc(h: Heap, size: nat, request: Size): (Heap, Option<Addr>) {
    var want := Rounded(request);
    if want >= h.available then (h, None)
    else
      match FirstFit(h.b.addrs, h.b.free, want)
      case None => (h, None)
      case Some(a) => (Take(h, size, Index(h.b.addrs, a), want), Some(a))
  }

  /** The free block at position `i` swallows the block after it, when that is free too. */
  function JoinNext(b: Blocks, i: nat): Blocks
    requires i + 1 < |b.addrs|
  {
    if b.addrs[i + 1] in b.used then b else Join(b, i + 1)
  }

  /** `rt_memheap_free` of the block at position `i`. */
  function Free(h: Heap, i: nat): Heap
    requires i + 1 < |h.b.addrs|
  {
    var b := h.b;
    var available := h.available + Payload(b.addrs, i);
    var b1 := Release(b, b.addrs[i]);
    var left := i > 0 && b.addrs[i - 1] !in b.used;
    var right := b.addrs[i + 1] !in b.used;
    var b2 := if left then Join(b1, i) else b1;
    var k := if left then i - 1 else i;
    Heap(JoinNext(b2, k), available + (if left then H else 0) + (if right then H else 0), h.maxUsed)
  }

  lemma TakeKeepsInv(h: Heap, start: Addr, size: nat, i: nat, want: nat)
    requires Inv(h, start, size) && i + 1 < |h.b.addrs| && h.b.addrs[i] !in h.b.used
    requires want % 4 == 0 && Payload(h.b.addrs, i) >= want
    ensures Inv(Take(h, size, i, want), start, size)
  {
    hide FreeBytes, Sound, NoNeighbours, NoNeighboursBut, InsertAt, Remove, Payload;
    UseSound(h.b, i, start, size);
    if Payload(h.b.addrs, i) >= want + H + MinAlloc {
      TakeCuts(h, start, size, i, want);
    }
  }

  lemma TakeCuts(h: Heap, start: Addr, size: nat, i: nat, want: nat)
    requires Inv(h, start, size) && i + 1 < |h.b.addrs| && h.b.addrs[i] !in h.b.used
    requires want % 4 == 0 && Payload(h.b.addrs, i) >= want + H
    ensures var a := h.b.addrs[i];
            var b := Cut(Use(h.b, a), i + 1, a + H + want);
            && Sound(b, start, size) && NoNeighbours(b.addrs, b.used)
            && FreeBytes(H, b.addrs, b.used) == h.available - want - H
  {
    hide FreeBytes, Sound, NoNeighbours, NoNeighboursBut, InsertAt, Remove;
    var a := h.b.addrs[i];
    var b, x := Use(h.b, a), a + H + want;
    AlignedAt(h.b, start, size, i);
    AlignedSum(H, a - start, want);
    ApartAt(h.b, i);
    UseSound(h.b, i, start, size);
    CutSound(b, i + 1, x, start, size);
    CutSettled(b.addrs, b.used, i + 1, x);
  }

  lemma AlignedAt(b: Blocks, start: Addr, size: nat, i: nat)
    requires Sound(b, start, size) && i < |b.addrs|
    ensures (b.addrs[i] - start) % 4 == 0
  {
    assert b.addrs[i] in b.addrs;
  }

  lemma ApartAt(b: Blocks, i: nat)
    requires NoNeighbours(b.addrs, b.used) && i < |b.addrs|
    ensures Apart(b.addrs, b.used, i)
    ensures i > 0 ==> Apart(b.addrs, b.used, i - 1)
  {
    assert Apart(b.addrs, b.used, i);
    if i > 0 { assert Apart(b.addrs, b.used, i - 1); }
  }

  /** An address of the free list is a free block. */
  lemma FreeAt(b: Blocks, start: Addr, size: nat, a: Addr)
    requires Sound(b, start, size) && a in b.free
    ensures a in b.addrs && a !in b.used && Index(b.addrs, a) + 1 < |b.addrs|
  {
  }

  /** Allocation succeeds exactly when the size is below what is available and some free block has room. */
  lemma AllocKeepsInv(h: Heap, start: Addr, size: nat, request: Size)
    requires Inv(h, start, size)
    ensures var (h', r) := Alloc(h, size, request);
            && Inv(h', start, size)
            && (r.Some? <==> Rounded(request) < h.available
                             && exists a :: a in h.b.free && SizeAt(H, h.b.addrs, a) >= Rounded(request))
            && (r.None? ==> h' == h)
            && (r.Some? ==> r.value in h.b.free && r.value in h'.b.used
                            && SizeAt(H, h'.b.addrs, r.value) >= Rounded(request))
  {
    hide FreeBytes, Sound, NoNeighbours, InsertAt, Remove;
    var want := Rounded(request);
    if want < h.available {
      match FirstFit(h.b.addrs, h.b.free, want)
      case None =>
      case Some(a) =>
        FreeAt(h.b, start, size, a);
        var i := Index(h.b.addrs, a);
        TakeKeepsInv(h, start, size, i, want);
        TakenSize(h, start, size, i, want);
    }
  }

  lemma TakenSize(h: Heap, start: Addr, size: nat, i: nat, want: nat)
    requires Inv(h, start, size) && i + 1 < |h.b.addrs| && Payload(h.b.addrs, i) >= want
    requires Inv(Take(h, size, i, want), start, size)
    ensures var h' := Take(h, size, i, want);
            h.b.addrs[i] in h'.b.used && SizeAt(H, h'.b.addrs, h.b.addrs[i]) >= want
  {
    hide FreeBytes, NoNeighbours, Remove, Listed, Aligned;
    var h' := Take(h, size, i, want);
    assert h'.b.addrs[i] == h.b.addrs[i];
    IndexUnique(H, h'.b.addrs, i);
  }

  lemma FreeKeepsInv(h: Heap, start: Addr, size: nat, i: nat)
    requires Inv(h, start, size) && i + 1 < |h.b.addrs| && h.b.addrs[i] in h.b.used
    ensures Inv(Free(h, i), start, size)
  {
    hide FreeBytes, Sound, NoNeighbours, NoNeighboursBut, DropAt, Remove;
    var b := h.b;
    var b1 := Release(b, b.addrs[i]);
    ReleaseSound(b, i, start, size);
    if i > 0 { DifferAt(b, start, size, i - 1, i); }
    DifferAt(b, start, size, i, i + 1);
    if i > 0 && b.addrs[i - 1] !in b.used {
      JoinSound(b1, i, start, size);
      JoinApart(b1.addrs, b1.used, i);
      ApartAt(b, i - 1);
      if i >= 2 { DifferAt(b, start, size, i - 2, i); }
      JoinNextKeeps(Join(b1, i), start, size, i - 1);
    } else {
      JoinNextKeeps(b1, start, size, i);
    }
  }

  lemma DifferAt(b: Blocks, start: Addr, size: nat, i: nat, k: nat)
    requires Sound(b, start, size) && i < k < |b.addrs|
    ensures b.addrs[i] + H <= b.addrs[k]
  {
  }

  /** Merging to the right leaves no free neighbours, and the free bytes gain the swallowed header. */
  lemma JoinNextKeeps(b: Blocks, start: Addr, size: nat, i: nat)
    requires Sound(b, start, size) && i + 1 < |b.addrs| && b.addrs[i] !in b.used
    requires NoNeighboursBut(b.addrs, b.used, i) && (i > 0 ==> b.addrs[i - 1] in b.used)
    ensures Sound(JoinNext(b, i), start, size)
    ensures NoNeighbours(JoinNext(b, i).addrs, JoinNext(b, i).used)
    ensures FreeBytes(H, JoinNext(b, i).addrs, JoinNext(b, i).used)
            == FreeBytes(H, b.addrs, b.used) + (if b.addrs[i + 1] in b.used then 0 else H)
  {
    hide FreeBytes, Sound, NoNeighboursBut, DropAt, Remove;
    if b.addrs[i + 1] in b.used {
      forall k | 0 <= k < |b.addrs| ensures Apart(b.addrs, b.used, k) {
        if k != i && k + 1 != i { ButAt(b, i, k); }
      }
    } else {
      JoinSound(b, i + 1, start, size);
      ButAt(b, i, i + 1);
      JoinApart(b.addrs, b.used, i + 1);
    }
  }

  lemma ButAt(b: Blocks, i: nat, k: nat)
    requires NoNeighboursBut(b.addrs, b.used, i) && k < |b.addrs| && k != i && k + 1 != i
    ensures Apart(b.addrs, b.used, k)
  {
  }

  // ---- Live blocks keep their place ----

  /** `u` heads a block in use that is not the tail. */
  predicate Live(b: Blocks, u: Addr) {
    LiveIn(b.addrs, b.used, u)
  }

  /** `u` is still in use, with the same payload. */
  predicate Stays(b: Blocks, b': Blocks, u: Addr) {
    StaysIn(H, b.addrs, b.used, b'.addrs, b'.used, u)
  }

  lemma CutStays(b: Blocks, i: nat, x: Addr, u: Addr)
    requires Spaced(H, b.addrs) && 0 < i < |b.addrs| && Spaced(H, InsertAt(b.addrs, i, x)) && u != b.addrs[i - 1]
    ensures Stays(b, Cut(b, i, x), u)
  {
    hide Spaced, SizeAt, LiveIn;
    InsertStays(H, b.addrs, b.used, i, x, u);
  }

  lemma JoinStays(b: Blocks, i: nat, u: Addr)
    requires Spaced(H, b.addrs) && 0 < i < |b.addrs| && Spaced(H, DropAt(b.addrs, i))
    requires u != b.addrs[i - 1] && b.addrs[i] !in b.used
    ensures Stays(b, Join(b, i), u)
  {
    hide Spaced, SizeAt, LiveIn;
    DropStays(H, b.addrs, b.used, i, u);
  }

  lemma SoundSpaced(b: Blocks, start: Addr, size: nat)
    requires Sound(b, start, size)
    ensures Spaced(H, b.addrs)
  {
  }

  lemma TakeStays(h: Heap, start: Addr, size: nat, i: nat, want: nat, u: Addr)
    requires Inv(h, start, size) && i + 1 < |h.b.addrs| && h.b.addrs[i] !in h.b.used
    requires Inv(Take(h, size, i, want), start, size)
    ensures Stays(h.b, Take(h, size, i, want).b, u)
  {
    hide FreeBytes, Sound, NoNeighbours, InsertAt, Remove, Index, SizeAt;
    var a := h.b.addrs[i];
    SoundSpaced(h.b, start, size);
    if u != a && Payload(h.b.addrs, i) >= want + H + MinAlloc {
      SoundSpaced(Take(h, size, i, want).b, start, size);
      CutStays(Use(h.b, a), i + 1, a + H + want, u);
    }
  }

  lemma FreeStays(h: Heap, start: Addr, size: nat, i: nat, u: Addr)
    requires Inv(h, start, size) && i + 1 < |h.b.addrs| && h.b.addrs[i] in h.b.used && u != h.b.addrs[i]
    ensures Stays(h.b, Free(h, i).b, u)
  {
    hide FreeBytes, Sound, NoNeighbours, NoNeighboursBut, DropAt, Remove, Index, Payload;
    var b := h.b;
    var b1 := Release(b, b.addrs[i]);
    assert Stays(b, b1, u);
    ReleaseSound(b, i, start, size);
    SoundSpaced(b1, start, size);
    DifferAt(b, start, size, i, i + 1);
    if i > 0 { DifferAt(b, start, size, i - 1, i); }
    if i > 0 && b.addrs[i - 1] !in b.used {
      JoinSound(b1, i, start, size);
      SoundSpaced(Join(b1, i), start, size);
      if Live(b, u) { JoinStays(b1, i, u); }
      JoinNextStays(Join(b1, i), start, size, i - 1, u);
    } else {
      JoinNextStays(b1, start, size, i, u);
    }
  }

  lemma JoinNextStays(b: Blocks, start: Addr, size: nat, i: nat, u: Addr)
    requires Sound(b, start, size) && i + 1 < |b.addrs| && b.addrs[i] !in b.used
    ensures Stays(b, JoinNext(b, i), u)
  {
    hide FreeBytes, Sound, DropAt, Remove, Index;
    SoundSpaced(b, start, size);
    if b.addrs[i + 1] !in b.used {
      JoinSound(b, i + 1, start, size);
      SoundSpaced(Join(b, i + 1), start, size);
      if Live(b, u) { JoinStays(b, i + 1, u); }
    }
  }

  lemma AllocStays(h: Heap, start: Addr, size: nat, request: Size, u: Addr)
    requires Inv(h, start, size)
    ensures Stays(h.b, Alloc(h, size, request).0.b, u)
  {
    hide FreeBytes, Sound, NoNeighbours, Take, Stays;
    KeptStays(h.b, u);
    var want := Rounded(request);
    if want < h.available {
      match FirstFit(h.b.addrs, h.b.free, want)
      case None =>
      case Some(a) =>
        FreeAt(h.b, start, size, a);
        TakeKeepsInv(h, start, size, Index(h.b.addrs, a), want);
        TakeStays(h, start, size, Index(h.b.addrs, a), want, u);
    }
  }

  lemma KeptStays(b: Blocks, u: Addr)
    ensures Stays(b, b, u)
  {
  }

  // ---- Reallocation ----

  /** The block at position `i` grows into the free block after it, whose header moves up. */
  function Grow(h: Heap, size: nat, i: nat, want: nat): Heap
    requires i + 2 < |h.b.addrs|
  {
    var available := h.available - (want - Payload(h.b.addrs, i));
    Heap(Cut(Join(h.b, i + 1), i + 1, h.b.addrs[i] + H + want), available, Mark(h.maxUsed, size, available))
  }

  /** The block at position `i` gives back its end, merged with the block after it when that is free. */
  function Shrink(h: Heap, i: nat, want: nat): Heap
    requires i + 1 < |h.b.addrs| && (h.b.addrs[i + 1] in h.b.used || i + 2 < |h.b.addrs|)
  {
    var b := JoinNext(Cut(h.b, i + 1, h.b.addrs[i] + H + want), i + 1);
    var available := h.available - (if h.b.addrs[i + 1] in h.b.used then 0 else Payload(h.b.addrs, i + 1));
    Heap(b, available + Payload(b.addrs, i + 1), h.maxUsed)
  }

  lemma GrowKeepsInv(h: Heap, start: Addr, size: nat, i: nat, want: nat)
    requires Inv(h, start, size) && i + 2 < |h.b.addrs| && h.b.addrs[i] in h.b.used && h.b.addrs[i + 1] !in h.b.used
    requires want % 4 == 0 && Payload(h.b.addrs, i) < want < Payload(h.b.addrs, i) + Payload(h.b.addrs, i + 1)
    ensures Inv(Grow(h, size, i, want), start, size)
    ensures var b' := Grow(h, size, i, want).b;
            && i + 1 < |b'.addrs| && b'.addrs[i] == h.b.addrs[i] && b'.addrs[i + 1] == h.b.addrs[i] + H + want
            && forall u :: u != h.b.addrs[i] ==> Stays(h.b, b', u)
  {
    hide FreeBytes, Sound, NoNeighbours, NoNeighboursBut, InsertAt, DropAt, Remove, Stays;
    var b, a := h.b, h.b.addrs[i];
    var b1, x := Join(b, i + 1), a + H + want;
    JoinSound(b, i + 1, start, size);
    ApartAt(b, i + 1);
    JoinedApart(b, i + 1);
    AlignedAt(b, start, size, i);
    AlignedSum(H, a - start, want);
    CutSound(b1, i + 1, x, start, size);
    CutSettled(b1.addrs, b1.used, i + 1, x);
    SoundSpaced(b, start, size);
    SoundSpaced(b1, start, size);
    SoundSpaced(Cut(b1, i + 1, x), start, size);
    var b2 := Cut(b1, i + 1, x);
    forall u | u != a ensures Stays(b, b2, u) {
      JoinStays(b, i + 1, u);
      CutStays(b1, i + 1, x, u);
      StaysTwice(b, b1, b2, u);
    }
  }

  lemma StaysTwice(b: Blocks, b1: Blocks, b2: Blocks, u: Addr)
    requires Stays(b, b1, u) && Stays(b1, b2, u)
    ensures Stays(b, b2, u)
  {
  }

  lemma JoinedApart(b: Blocks, i: nat)
    requires NoNeighbours(b.addrs, b.used) && 0 < i < |b.addrs| - 1 && b.addrs[i - 1] in b.used
    ensures NoNeighbours(DropAt(b.addrs, i), b.used)
  {
    var r := DropAt(b.addrs, i);
    forall k | 0 <= k < |r| ensures Apart(r, b.used, k) {
      assert Apart(b.addrs, b.used, if k < i then k else k + 1);
    }
  }

  lemma ShrinkKeepsInv(h: Heap, start: Addr, size: nat, i: nat, want: nat)
    requires Inv(h, start, size) && i + 1 < |h.b.addrs| && h.b.addrs[i] in h.b.used
    requires h.b.addrs[i + 1] in h.b.used || i + 2 < |h.b.addrs|
    requires want % 4 == 0 && want + H <= Payload(h.b.addrs, i)
    ensures Inv(Shrink(h, i, want), start, size)
    ensures var b' := Shrink(h, i, want).b;
            && i + 1 < |b'.addrs| && b'.addrs[i] == h.b.addrs[i] && b'.addrs[i + 1] == h.b.addrs[i] + H + want
            && forall u :: u != h.b.addrs[i] ==> Stays(h.b, b', u)
  {
    hide FreeBytes, Sound, NoNeighbours, NoNeighboursBut, InsertAt, DropAt, Remove, Stays;
    var b, a := h.b, h.b.addrs[i];
    var x := a + H + want;
    var b1 := Cut(b, i + 1, x);
    AlignedAt(b, start, size, i);
    AlignedSum(H, a - start, want);
    CutSound(b, i + 1, x, start, size);
    FreshFree(b, start, size, i, x);
    JoinNextKeeps(b1, start, size, i + 1);
    SoundSpaced(b, start, size);
    SoundSpaced(b1, start, size);
    var b2 := JoinNext(b1, i + 1);
    forall u | u != a ensures Stays(b, b2, u) {
      CutStays(b, i + 1, x, u);
      JoinNextStays(b1, start, size, i + 1, u);
      StaysTwice(b, b1, b2, u);
    }
  }

  lemma FreshFree(b: Blocks, start: Addr, size: nat, i: nat, x: Addr)
    requires Sound(b, start, size) && i + 1 < |b.addrs| && b.addrs[i] + H <= x && x + H <= b.addrs[i + 1]
    ensures x !in b.used
  {
    SpacedMember(H, b.addrs, i + 1, x);
  }
}
