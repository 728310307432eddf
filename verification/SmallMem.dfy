/**
 The small-memory heap of mem.c on values: block headers at offsets into the heap, ending in the always used
 `heap_end`, a lowest-free pointer that need not be the lowest, and the memory statistics. This module has the
 operations as functions and what searching and merging keep; module SmallMemRuns has whole calls and runs of
 them, module SmallMemObject the same in place.
 */
module SmallMem {
  import opened Common
  import opened BlockList

  /** SIZEOF_STRUCT_MEM and MIN_SIZE_ALIGNED. */
  const G: nat := 12
  const MinSize: nat := 12
  const Word: int := 0x1_0000_0000

  type Size = x: int | 0 <= x < 0x1_0000_0000

  datatype Heap = Heap(addrs: seq<Addr>, used: set<Addr>, lfree: Addr, usedMem: int, maxMem: int)

  /** The summed length, header included, of the used blocks before `heap_end`. */
  function UsedBytes(addrs: seq<Addr>, used: set<Addr>): int {
    if |addrs| < 2 then 0 else (if addrs[0] in used then addrs[1] - addrs[0] else 0) + UsedBytes(addrs[1..], used)
  }

  /** Used and free lengths add up to the whole heap. */
  lemma {:induction false} Conservation(addrs: seq<Addr>, used: set<Addr>)
    requires addrs != []
    ensures addrs[0] + UsedBytes(addrs, used) + FreeBytes(0, addrs, used) == addrs[|addrs| - 1]
  {
    if |addrs| >= 2 {
      Conservation(addrs[1..], used);
    }
  }

  /** `lfree` is a free block or `heap_end`. */
  ghost predicate FreeOrEnd(addrs: seq<Addr>, used: set<Addr>, lfree: Addr) {
    addrs != [] && lfree in addrs && (lfree == addrs[|addrs| - 1] || lfree !in used)
  }

  /** Every block before `lfree` is used. */
  ghost predicate Lowest(h: Heap) {
    forall a :: a in h.addrs && a < h.lfree ==> a in h.used
  }

  ghost predicate Inv(h: Heap, size: nat) {
    && size >= MinSize && size + 2 * G <= Word && size % 4 == 0
    && Tiled(G, h.addrs, h.used, 0, size + 2 * G)
    && NoNeighbours(h.addrs, h.used)
    && FreeOrEnd(h.addrs, h.used, h.lfree)
    && h.usedMem == UsedBytes(h.addrs, h.used) && h.usedMem <= h.maxMem
  }

  /** `rt_system_heap_init`: one free block and `heap_end`. */
  function InitHeap(size: nat): Heap {
    Heap([0, size + G], {size + G}, 0, 0, 0)
  }

  lemma InitInv(size: nat)
    requires size >= MinSize && size + 2 * G <= Word && size % 4 == 0
    ensures Inv(InitHeap(size), size) && Lowest(InitHeap(size))
  {
    var h := InitHeap(size);
    assert h.addrs[1..] == [size + G];
    assert UsedBytes(h.addrs[1..], h.used) == 0;
  }

  // ---- rt_malloc ----

  function Aligned4(size: Size): (r: Size)
    ensures r % 4 == 0
    ensures size <= 0xffff_fffc ==> size <= r < size + 4
  {
    (size + 3) % Word / 4 * 4
  }

  /** The block at position `i` is free and has room. */
  predicate Fits(addrs: seq<Addr>, used: set<Addr>, i: nat, want: nat) {
    i + 1 < |addrs| && addrs[i] !in used && addrs[i + 1] - addrs[i] - G >= want
  }

  /** The search from position `i`: the first block that fits, among those strictly below `limit`. */
  function Search(addrs: seq<Addr>, used: set<Addr>, i: nat, limit: int, want: nat): (r: Option<nat>)
    ensures r.Some? ==> i <= r.value && Fits(addrs, used, r.value, want) && addrs[r.value] < limit
    ensures r.Some? ==> forall k :: i <= k < r.value ==> !Fits(addrs, used, k, want)
    decreases |addrs| - i
  {
    if i >= |addrs| || addrs[i] >= limit then None
    else if Fits(addrs, used, i, want) then Some(i)
    else Search(addrs, used, i + 1, limit, want)
  }

  /** Nothing found means that nothing from `i` on that fits lies below the limit. */
  lemma {:induction false} SearchFails(addrs: seq<Addr>, used: set<Addr>, i: nat, limit: int, want: nat)
    requires Spaced(G, addrs) && Search(addrs, used, i, limit, want).None?
    ensures forall k :: i <= k < |addrs| && Fits(addrs, used, k, want) ==> addrs[k] >= limit
    decreases |addrs| - i
  {
    if i < |addrs| {
      if addrs[i] >= limit {
        forall k | i <= k < |addrs| ensures addrs[k] >= limit {
          if k > i { assert addrs[i] + G <= addrs[k]; }
        }
      } else {
        SearchFails(addrs, used, i + 1, limit, want);
      }
    }
  }

  /** The first unused header from position `i` on, or the last header. */
  function NextFree(addrs: seq<Addr>, used: set<Addr>, i: nat): (r: Addr)
    requires i < |addrs|
    ensures FreeOrEnd(addrs, used, r)
    decreases |addrs| - i
  {
    if addrs[i] !in used || i + 1 == |addrs| then addrs[i] else NextFree(addrs, used, i + 1)
  }

  lemma {:induction false} NextFreeLowest(addrs: seq<Addr>, used: set<Addr>, i: nat)
    requires Spaced(G, addrs) && i < |addrs| && forall k :: 0 <= k < i ==> addrs[k] in used
    ensures forall k :: 0 <= k < |addrs| && addrs[k] < NextFree(addrs, used, i) ==> addrs[k] in used
    decreases |addrs| - i
  {
    if addrs[i] !in used || i + 1 == |addrs| {
      forall k | i <= k < |addrs| ensures addrs[k] >= addrs[i] {
        if k > i { assert addrs[i] + G <= addrs[k]; }
      }
    } else {
      NextFreeLowest(addrs, used, i + 1);
    }
  }

  /** The block at position `i` is handed out, split when the rest is big enough for a block. */
  function Take(h: Heap, i: nat, want: nat): Heap
    requires i + 1 < |h.addrs|
  {
    var a := h.addrs[i];
    var split := h.addrs[i + 1] - a - G >= want + G + MinSize;
    var x: Addr := a + G + want;
    var addrs := if split then InsertAt(h.addrs, i + 1, x) else h.addrs;
    var used := h.used + {a};
    var usedMem := h.usedMem + (if split then want + G else h.addrs[i + 1] - a);
    Heap(addrs, used, if a == h.lfree then NextFree(addrs, used, i) else h.lfree, usedMem, Max(h.maxMem, usedMem))
  }

  /** `rt_malloc`: the heap after, and the header of the block handed out, whose payload starts `G` above. */
  function Malloc(h: Heap, size: nat, request: Size): (Heap, Option<Addr>)
    requires h.lfree in h.addrs
  {
    var aligned := Aligned4(request);
    if request == 0 || aligned > size then (h, None)
    else
      var want := Max(aligned, MinSize);
      match Search(h.addrs, h.used, Index(h.addrs, h.lfree), size - want, want)
      case None => (h, None)
      case Some(i) => (Take(h, i, want), Some(h.addrs[i]))
  }

  // ---- rt_free and rt_realloc ----

  /** `plug_holes` at position `i`: merge the free block with a free one behind it, then with one before it. */
  function PlugForward(h: Heap, i: nat): Heap
    requires i + 1 < |h.addrs|
  {
    if h.addrs[i + 1] in h.used then h
    else h.(addrs := DropAt(h.addrs, i + 1), lfree := if h.lfree == h.addrs[i + 1] then h.addrs[i] else h.lfree)
  }

  function PlugBackward(h: Heap, i: nat): Heap
    requires i < |h.addrs|
  {
    if i == 0 || h.addrs[i - 1] in h.used then h
    else h.(addrs := DropAt(h.addrs, i), lfree := if h.lfree == h.addrs[i] then h.addrs[i - 1] else h.lfree)
  }

  function PlugHoles(h: Heap, i: nat): Heap
    requires i + 1 < |h.addrs|
  {
    PlugBackward(PlugForward(h, i), i)
  }

  /** `rt_free` of the block at position `i`. */
  function Free(h: Heap, i: nat): Heap
    requires i + 1 < |h.addrs|
  {
    var a := h.addrs[i];
    PlugHoles(Heap(h.addrs, h.used - {a}, if a < h.lfree then a else h.lfree,
                   h.usedMem - (h.addrs[i + 1] - a), h.maxMem), i)
  }

  /** The splitting part of `rt_realloc`: a free header is written behind the first `newSize` payload bytes. */
  function Shrink(h: Heap, i: nat, newSize: nat): Heap
    requires i + 1 < |h.addrs|
  {
    var payload := h.addrs[i + 1] - h.addrs[i] - G;
    var x: Addr := h.addrs[i] + G + newSize;
    var addrs := InsertAt(h.addrs, i + 1, x);
    PlugHoles(h.(addrs := addrs, usedMem := h.usedMem - (payload - newSize)), i + 1)
  }

  // ---- What the steps keep ----

  lemma TiledInsert(addrs: seq<Addr>, used: set<Addr>, start: Addr, size: nat, i: nat, x: Addr)
    requires Tiled(G, addrs, used, start, size) && 0 < i < |addrs|
    requires addrs[i - 1] + G <= x && x + G <= addrs[i] && (x - start) % 4 == 0
    ensures Tiled(G, InsertAt(addrs, i, x), used, start, size) && x !in addrs
  {
    hide Spaced, InsertAt;
    SpacedInsert(G, addrs, i, x);
    SpacedMember(G, addrs, i, x);
    InsertMembers(addrs, i, x);
  }

  lemma TiledDrop(addrs: seq<Addr>, used: set<Addr>, start: Addr, size: nat, i: nat)
    requires Tiled(G, addrs, used, start, size) && 0 < i < |addrs| && addrs[i] !in used
    ensures i + 1 < |addrs| && Tiled(G, DropAt(addrs, i), used, start, size)
  {
    hide Spaced, DropAt;
    SpacedDrop(G, addrs, i);
    DropMembers(G, addrs, i);
  }

  lemma TiledApart(addrs: seq<Addr>, used: set<Addr>, start: Addr, size: nat, i: nat, k: nat)
    requires Tiled(G, addrs, used, start, size) && i < k < |addrs|
    ensures addrs[i] + G <= addrs[k] && start <= addrs[i] && addrs[k] + G <= start + size
    ensures (addrs[i] - start) % 4 == 0
  {
    assert addrs[i] in addrs;
    if i > 0 { assert addrs[0] + G <= addrs[i]; }
    if k < |addrs| - 1 { assert addrs[k] + G <= addrs[|addrs| - 1]; }
  }

  /** Everything of the invariant but the absence of free neighbours. */
  ghost predicate Sound(h: Heap, size: nat) {
    && size >= MinSize && size + 2 * G <= Word && size % 4 == 0
    && Tiled(G, h.addrs, h.used, 0, size + 2 * G)
    && FreeOrEnd(h.addrs, h.used, h.lfree)
    && h.usedMem == UsedBytes(h.addrs, h.used) && h.usedMem <= h.maxMem
  }

  /** Only the pair ending at position `i` may be two free neighbours. */
  ghost predicate NoNeighboursAfter(addrs: seq<Addr>, used: set<Addr>, i: nat) {
    forall k :: 0 <= k < |addrs| && k + 1 != i ==> Apart(addrs, used, k)
  }

  lemma ForwardApart(addrs: seq<Addr>, used: set<Addr>, i: nat)
    requires NoNeighboursBut(addrs, used, i) && i + 2 < |addrs| && addrs[i + 1] !in used
    ensures NoNeighboursAfter(DropAt(addrs, i + 1), used, i)
  {
    var r := DropAt(addrs, i + 1);
    assert Apart(addrs, used, i + 1);
    forall k | 0 <= k < |r| && k + 1 != i ensures Apart(r, used, k) {
      if k < i { assert Apart(addrs, used, k); }
      if k > i { assert Apart(addrs, used, k + 1); }
    }
  }

  lemma BackwardApart(addrs: seq<Addr>, used: set<Addr>, i: nat)
    requires NoNeighboursAfter(addrs, used, i) && 0 < i < |addrs| - 1 && addrs[i] !in used
    ensures NoNeighbours(DropAt(addrs, i), used)
  {
    var r := DropAt(addrs, i);
    assert Apart(addrs, used, i);
    forall k | 0 <= k < |r| ensures Apart(r, used, k) {
      if k < i - 1 { assert Apart(addrs, used, k); }
      if k >= i { assert Apart(addrs, used, k + 1); }
    }
  }

  lemma StillApart(addrs: seq<Addr>, used: set<Addr>, i: nat)
    requires i + 1 < |addrs|
    ensures NoNeighboursBut(addrs, used, i) && addrs[i + 1] in used ==> NoNeighboursAfter(addrs, used, i)
    ensures NoNeighboursAfter(addrs, used, i) && (i == 0 || addrs[i - 1] in used) ==> NoNeighbours(addrs, used)
  {
    if NoNeighboursBut(addrs, used, i) && addrs[i + 1] in used {
      forall k | 0 <= k < |addrs| && k + 1 != i ensures Apart(addrs, used, k) {
      }
    }
    if NoNeighboursAfter(addrs, used, i) && (i == 0 || addrs[i - 1] in used) {
      forall k | 0 <= k < |addrs| ensures Apart(addrs, used, k) {
      }
    }
  }

  /** Merging a free block with a free one behind it keeps the used length. */
  lemma DropFree(addrs: seq<Addr>, used: set<Addr>, i: nat)
    requires 0 < i < |addrs| - 1 && addrs[i] !in used && addrs[i - 1] !in used
    ensures UsedBytes(DropAt(addrs, i), used) == UsedBytes(addrs, used)
  {
    hide UsedBytes, FreeBytes;
    Conservation(addrs, used);
    Conservation(DropAt(addrs, i), used);
    DropBytes(0, addrs, used, i);
  }

  lemma DropLfree(addrs: seq<Addr>, used: set<Addr>, lfree: Addr, i: nat)
    requires Spaced(G, addrs) && 0 < i < |addrs| - 1 && addrs[i] !in used && addrs[i - 1] !in used
    requires FreeOrEnd(addrs, used, lfree)
    ensures FreeOrEnd(DropAt(addrs, i), used, if lfree == addrs[i] then addrs[i - 1] else lfree)
  {
    var r := DropAt(addrs, i);
    DropMembers(G, addrs, i);
    assert addrs[i - 1] == r[i - 1];
    assert addrs[i - 1] + G <= addrs[i];
    assert r[|r| - 1] == addrs[|addrs| - 1];
  }

  lemma ForwardKeeps(h: Heap, size: nat, i: nat)
    requires Sound(h, size) && i + 1 < |h.addrs| && h.addrs[i] !in h.used && NoNeighboursBut(h.addrs, h.used, i)
    ensures Sound(PlugForward(h, i), size) && NoNeighboursAfter(PlugForward(h, i).addrs, h.used, i)
    ensures i + 1 < |PlugForward(h, i).addrs| && PlugForward(h, i).addrs[i] == h.addrs[i]
    ensures forall k :: 0 <= k <= i ==> PlugForward(h, i).addrs[k] == h.addrs[k]
    ensures Lowest(h) ==> Lowest(PlugForward(h, i))
  {
    hide UsedBytes, NoNeighboursAfter, NoNeighboursBut, FreeOrEnd, DropAt;
    if h.addrs[i + 1] in h.used {
      StillApart(h.addrs, h.used, i);
    } else {
      TiledDrop(h.addrs, h.used, 0, size + 2 * G, i + 1);
      ForwardApart(h.addrs, h.used, i);
      DropFree(h.addrs, h.used, i + 1);
      DropLfree(h.addrs, h.used, h.lfree, i + 1);
      DropLowest(h, i + 1);
    }
  }

  lemma DropLowest(h: Heap, i: nat)
    requires Spaced(G, h.addrs) && 0 < i < |h.addrs| - 1 && h.addrs[i - 1] !in h.used
    ensures Lowest(h) ==>
            Lowest(h.(addrs := DropAt(h.addrs, i), lfree := if h.lfree == h.addrs[i] then h.addrs[i - 1] else h.lfree))
  {
    DropMembers(G, h.addrs, i);
    assert h.addrs[i - 1] in h.addrs && h.addrs[i - 1] + G <= h.addrs[i];
  }

  lemma BackwardKeeps(h: Heap, size: nat, i: nat)
    requires Sound(h, size) && i + 1 < |h.addrs| && h.addrs[i] !in h.used && NoNeighboursAfter(h.addrs, h.used, i)
    ensures Inv(PlugBackward(h, i), size)
    ensures Lowest(h) ==> Lowest(PlugBackward(h, i))
  {
    hide UsedBytes, NoNeighboursAfter, FreeOrEnd, DropAt, NoNeighbours;
    if i == 0 || h.addrs[i - 1] in h.used {
      StillApart(h.addrs, h.used, i);
    } else {
      TiledDrop(h.addrs, h.used, 0, size + 2 * G, i);
      BackwardApart(h.addrs, h.used, i);
      DropFree(h.addrs, h.used, i);
      DropLfree(h.addrs, h.used, h.lfree, i);
      DropLowest(h, i);
    }
  }

  lemma PlugKeeps(h: Heap, size: nat, i: nat)
    requires Sound(h, size) && i + 1 < |h.addrs| && h.addrs[i] !in h.used && NoNeighboursBut(h.addrs, h.used, i)
    ensures Inv(PlugHoles(h, i), size)
    ensures Lowest(h) ==> Lowest(PlugHoles(h, i))
  {
    hide Sound, Inv, Lowest, NoNeighboursBut, NoNeighboursAfter;
    ForwardKeeps(h, size, i);
    BackwardKeeps(PlugForward(h, i), size, i);
  }
}
