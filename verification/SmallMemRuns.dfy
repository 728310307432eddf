/**
 What whole calls of mem.c keep, and runs of them. Every call keeps the structure: blocks that tile the heap up
 to `heap_end`, no two of them free next to each other, `used_mem` the bytes of the used ones, and `lfree` a free
 block or `heap_end`. Whether `lfree` is the lowest free block depends on the calls: malloc and free keep it so,
 a reallocation that shrinks a block does under an exact condition. No call moves or shrinks a block it was not
 called for, and a call that fails changes nothing.
 */
module SmallMemRuns {
  import opened Common
  import opened BlockList
  import opened SmallMem

  lemma TakeBytes(addrs: seq<Addr>, used: set<Addr>, i: nat)
    requires Spaced(G, addrs) && i + 1 < |addrs| && addrs[i] !in used
    ensures UsedBytes(addrs, used + {addrs[i]}) == UsedBytes(addrs, used) + (addrs[i + 1] - addrs[i])
  {
    hide UsedBytes, FreeBytes;
    MarkBytes(G, 0, addrs, used, i);
    Conservation(addrs, used);
    Conservation(addrs, used + {addrs[i]});
  }

  /** A free header behind a used block takes the rest out of the used length. */
  lemma CutBytes(addrs: seq<Addr>, used: set<Addr>, i: nat, x: Addr)
    requires 0 < i < |addrs| && addrs[i - 1] in used && x !in used
    ensures UsedBytes(InsertAt(addrs, i, x), used) == UsedBytes(addrs, used) - (addrs[i] - x)
  {
    hide UsedBytes, FreeBytes, InsertAt;
    InsertBytes(0, addrs, used, i, x);
    Conservation(addrs, used);
    Conservation(InsertAt(addrs, i, x), used);
  }

  lemma UseApart(addrs: seq<Addr>, used: set<Addr>, a: Addr)
    requires NoNeighbours(addrs, used)
    ensures NoNeighbours(addrs, used + {a})
  {
    forall k | 0 <= k < |addrs| ensures Apart(addrs, used + {a}, k) {
      assert Apart(addrs, used, k);
    }
  }

  /** The headers and used marks after a block was handed out, before `lfree` moves. */
  lemma TakeShape(h: Heap, size: nat, i: nat, want: nat)
    requires Inv(h, size) && Fits(h.addrs, h.used, i, want) && want % 4 == 0
    ensures var h' := Take(h, i, want);
            && Tiled(G, h'.addrs, h'.used, 0, size + 2 * G)
            && NoNeighbours(h'.addrs, h'.used)
            && h'.usedMem == UsedBytes(h'.addrs, h'.used)
  {
    hide UsedBytes, NoNeighbours, Tiled, InsertAt, NextFree, FreeOrEnd, Spaced;
    var a, addrs := h.addrs[i], h.addrs;
    var used := h.used + {a};
    TiledSpaced(addrs, h.used, size);
    TakeBytes(addrs, h.used, i);
    UseApart(addrs, h.used, a);
    TiledUse(addrs, h.used, size, i);
    if addrs[i + 1] - a - G >= want + G + MinSize {
      var x: Addr := a + G + want;
      TiledApart(addrs, h.used, 0, size + 2 * G, i, i + 1);
      AlignedSum(G, a, want);
      TiledInsert(addrs, used, 0, size + 2 * G, i + 1, x);
      TiledNew(addrs, used, size, x);
      CutBytes(addrs, used, i + 1, x);
      BothUsed(addrs, h.used, i);
      CutApart(addrs, used, i + 1, x);
      CutSettled(addrs, used, i + 1, x);
    }
  }

  lemma TiledSpaced(addrs: seq<Addr>, used: set<Addr>, size: nat)
    requires Tiled(G, addrs, used, 0, size + 2 * G)
    ensures Spaced(G, addrs)
  {
  }

  lemma TiledUse(addrs: seq<Addr>, used: set<Addr>, size: nat, i: nat)
    requires Tiled(G, addrs, used, 0, size + 2 * G) && i < |addrs|
    ensures Tiled(G, addrs, used + {addrs[i]}, 0, size + 2 * G)
  {
  }

  lemma TiledNew(addrs: seq<Addr>, used: set<Addr>, size: nat, x: Addr)
    requires Tiled(G, addrs, used, 0, size + 2 * G) && x !in addrs
    ensures x !in used
  {
  }

  lemma BothUsed(addrs: seq<Addr>, used: set<Addr>, i: nat)
    requires NoNeighbours(addrs, used) && i + 1 < |addrs| && addrs[i] !in used
    ensures addrs[i + 1] in used
  {
    assert Apart(addrs, used, i);
  }

  lemma TakeKeepsInv(h: Heap, size: nat, i: nat, want: nat)
    requires Inv(h, size) && Fits(h.addrs, h.used, i, want) && want % 4 == 0
    ensures Inv(Take(h, i, want), size)
    ensures Lowest(h) ==> Lowest(Take(h, i, want))
  {
    hide UsedBytes, NoNeighbours, Tiled, Lowest, NextFree;
    TakeShape(h, size, i, want);
    TakeLfree(h, size, i, want);
  }

  lemma TakeLfree(h: Heap, size: nat, i: nat, want: nat)
    requires Inv(h, size) && Fits(h.addrs, h.used, i, want) && want % 4 == 0
    requires Tiled(G, Take(h, i, want).addrs, Take(h, i, want).used, 0, size + 2 * G)
    ensures var h' := Take(h, i, want); FreeOrEnd(h'.addrs, h'.used, h'.lfree)
    ensures Lowest(h) ==> Lowest(Take(h, i, want))
  {
    hide Inv, Tiled, Take, Lowest, FreeOrEnd;
    InvPieces(h, size);
    TakeMembers(h, i, want);
    TiledSpaced(Take(h, i, want).addrs, Take(h, i, want).used, size);
    TakeFreeOrEnd(h, i, want);
    if Lowest(h) { TakeLowest(h, i, want); }
  }

  lemma TakeFreeOrEnd(h: Heap, i: nat, want: nat)
    requires Fits(h.addrs, h.used, i, want) && FreeOrEnd(h.addrs, h.used, h.lfree) && Took(h, i, want)
    ensures var h' := Take(h, i, want); FreeOrEnd(h'.addrs, h'.used, h'.lfree)
  {
    hide InsertAt, NextFree;
  }

  lemma TakeLowest(h: Heap, i: nat, want: nat)
    requires Fits(h.addrs, h.used, i, want) && Spaced(G, h.addrs) && Lowest(h) && Took(h, i, want)
    requires Spaced(G, Take(h, i, want).addrs)
    ensures Lowest(Take(h, i, want))
  {
    hide InsertAt, NextFree;
    var h', a := Take(h, i, want), h.addrs[i];
    if a == h.lfree {
      forall k | 0 <= k < i ensures h'.addrs[k] in h'.used {
        BeforeUsed(h, i, k);
      }
      NextFreeLowest(h'.addrs, h'.used, i);
      MembersLowest(h'.addrs, h'.used, h'.lfree);
    } else {
      assert a in h.addrs;
    }
  }

  lemma InvPieces(h: Heap, size: nat)
    requires Inv(h, size)
    ensures Spaced(G, h.addrs) && FreeOrEnd(h.addrs, h.used, h.lfree)
  {
  }

  lemma BeforeUsed(h: Heap, i: nat, k: nat)
    requires Spaced(G, h.addrs) && Lowest(h) && k < i < |h.addrs| && h.lfree == h.addrs[i]
    ensures h.addrs[k] in h.used
  {
    assert h.addrs[k] in h.addrs && h.addrs[k] + G <= h.addrs[i];
  }

  lemma MembersLowest(addrs: seq<Addr>, used: set<Addr>, l: Addr)
    requires forall k :: 0 <= k < |addrs| && addrs[k] < l ==> addrs[k] in used
    ensures forall a :: a in addrs && a < l ==> a in used
  {
  }

  /** The headers after a block was handed out: one more, or the same. */
  ghost predicate Took(h: Heap, i: nat, want: nat)
    requires i + 1 < |h.addrs|
  {
    var r, x := Take(h, i, want).addrs, h.addrs[i] + G + want;
    && (forall u :: u in r ==> u in h.addrs || u == x) && (forall u :: u in h.addrs ==> u in r)
    && r != [] && r[|r| - 1] == h.addrs[|h.addrs| - 1]
    && i < |r| && (forall k :: 0 <= k <= i ==> r[k] == h.addrs[k])
  }

  lemma TakeMembers(h: Heap, i: nat, want: nat)
    requires i + 1 < |h.addrs|
    ensures Took(h, i, want)
  {
    InsertMembers(h.addrs, i + 1, h.addrs[i] + G + want);
  }

  /** Where the search starts, how far it goes, and what it serves. */
  function Want(request: Size): nat {
    Max(Aligned4(request), MinSize)
  }

  /** A free block from `lfree` on with room for `want`. */
  predicate Candidate(h: Heap, k: nat, want: nat) {
    Fits(h.addrs, h.used, k, want) && h.lfree <= h.addrs[k]
  }

  /**
   Allocation succeeds exactly when some candidate lies strictly below `size - want`; it hands out the lowest
   candidate, and failure changes nothing.
   */
  lemma MallocKeepsInv(h: Heap, size: nat, request: Size)
    requires Inv(h, size)
    ensures var (h', r) := Malloc(h, size, request);
            Inv(h', size) && (Lowest(h) ==> Lowest(h')) && (r.None? ==> h' == h)
    ensures Malloc(h, size, request).1.Some? <==>
            request != 0 && Aligned4(request) <= size
            && exists k: nat :: Candidate(h, k, Want(request)) && h.addrs[k] < size - Want(request)
    ensures Malloc(h, size, request).1.Some? ==> HandsOutLowest(h, Malloc(h, size, request).1.value, Want(request))
  {
    hide Inv, Take, Search, Lowest, Candidate, HandsOutLowest;
    var want := Want(request);
    InvPieces(h, size);
    if request != 0 && Aligned4(request) <= size {
      SearchServes(h, size, want);
      match Search(h.addrs, h.used, Index(h.addrs, h.lfree), size - want, want)
      case None =>
      case Some(i) =>
        TakeKeepsInv(h, size, i, want);
    }
  }

  lemma SearchServes(h: Heap, size: nat, want: nat)
    requires Inv(h, size)
    ensures var r := Search(h.addrs, h.used, Index(h.addrs, h.lfree), size - want, want);
            && (r.Some? <==> exists k: nat :: Candidate(h, k, want) && h.addrs[k] < size - want)
            && (r.Some? ==> Candidate(h, r.value, want) && HandsOutLowest(h, h.addrs[r.value], want))
  {
    hide Inv, Search;
    InvPieces(h, size);
    var l := Index(h.addrs, h.lfree);
    AtOrAbove(h, size, l);
    match Search(h.addrs, h.used, l, size - want, want)
    case None =>
      SearchFails(h.addrs, h.used, l, size - want, want);
    case Some(i) =>
      AtOrAbove(h, size, i);
      assert Candidate(h, i, want);
  }

  ghost predicate HandsOutLowest(h: Heap, a: Addr, want: nat) {
    && (exists k: nat :: Candidate(h, k, want) && h.addrs[k] == a)
    && (forall j: nat :: Candidate(h, j, want) ==> a <= h.addrs[j])
  }

  lemma AtOrAbove(h: Heap, size: nat, l: nat)
    requires Inv(h, size) && l < |h.addrs|
    ensures forall k :: 0 <= k < |h.addrs| ==> (h.addrs[l] <= h.addrs[k] <==> l <= k)
  {
    forall k | 0 <= k < |h.addrs| ensures h.addrs[l] <= h.addrs[k] <==> l <= k {
      if k < l { assert h.addrs[k] + G <= h.addrs[l]; }
      if l < k { assert h.addrs[l] + G <= h.addrs[k]; }
    }
  }

  /** Of the blocks that fit, the strict bound refuses only an exact fit at the very end. */
  lemma StrictBound(h: Heap, size: nat, k: nat, want: nat)
    requires Inv(h, size) && Fits(h.addrs, h.used, k, want)
    ensures h.addrs[k] < size - want <==> !(h.addrs[k + 1] == size + G && h.addrs[k + 1] - h.addrs[k] - G == want)
  {
    hide NoNeighbours, UsedBytes, FreeOrEnd;
    TiledApart(h.addrs, h.used, 0, size + 2 * G, k, k + 1);
  }

  // ---- rt_free ----

  lemma FreeKeepsInv(h: Heap, size: nat, i: nat)
    requires Inv(h, size) && i + 1 < |h.addrs| && h.addrs[i] in h.used
    ensures Inv(Free(h, i), size)
    ensures Lowest(h) ==> Lowest(Free(h, i))
  {
    hide Inv, Sound, Lowest, PlugHoles, NoNeighbours, NoNeighboursBut;
    var a := h.addrs[i];
    var h1 := Heap(h.addrs, h.used - {a}, if a < h.lfree then a else h.lfree,
                   h.usedMem - (h.addrs[i + 1] - a), h.maxMem);
    FreedSound(h, size, i);
    PlugKeeps(h1, size, i);
  }

  lemma FreedSound(h: Heap, size: nat, i: nat)
    requires Inv(h, size) && i + 1 < |h.addrs| && h.addrs[i] in h.used
    ensures var a := h.addrs[i];
            var h1 := Heap(h.addrs, h.used - {a}, if a < h.lfree then a else h.lfree,
                           h.usedMem - (h.addrs[i + 1] - a), h.maxMem);
            && Sound(h1, size) && NoNeighboursBut(h1.addrs, h1.used, i)
            && (Lowest(h) ==> Lowest(h1))
  {
    hide UsedBytes, NoNeighbours, NoNeighboursBut;
    var a := h.addrs[i];
    TiledApart(h.addrs, h.used, 0, size + 2 * G, i, i + 1);
    TiledApart(h.addrs, h.used, 0, size + 2 * G, i, |h.addrs| - 1);
    assert h.used - {a} + {a} == h.used;
    TakeBytes(h.addrs, h.used - {a}, i);
    ReleaseApart(G, h.addrs, h.used, i);
  }

  // ---- rt_realloc ----

  lemma ShrinkKeepsInv(h: Heap, size: nat, i: nat, newSize: nat)
    requires Inv(h, size) && i + 1 < |h.addrs| && h.addrs[i] in h.used
    requires newSize % 4 == 0 && newSize + G <= h.addrs[i + 1] - h.addrs[i] - G
    ensures Inv(Shrink(h, i, newSize), size)
  {
    hide Inv, Sound, Lowest, PlugHoles, NoNeighbours, NoNeighboursBut, InsertAt;
    CutSound(h, size, i, newSize);
    var payload := h.addrs[i + 1] - h.addrs[i] - G;
    var x: Addr := h.addrs[i] + G + newSize;
    var h1 := h.(addrs := InsertAt(h.addrs, i + 1, x), usedMem := h.usedMem - (payload - newSize));
    PlugKeeps(h1, size, i + 1);
  }

  lemma CutSound(h: Heap, size: nat, i: nat, newSize: nat)
    requires Inv(h, size) && i + 1 < |h.addrs| && h.addrs[i] in h.used
    requires newSize % 4 == 0 && newSize + G <= h.addrs[i + 1] - h.addrs[i] - G
    ensures var payload := h.addrs[i + 1] - h.addrs[i] - G;
            var x: Addr := h.addrs[i] + G + newSize;
            var h1 := h.(addrs := InsertAt(h.addrs, i + 1, x), usedMem := h.usedMem - (payload - newSize));
            Sound(h1, size) && x !in h1.used && NoNeighboursBut(h1.addrs, h1.used, i + 1)
  {
    hide UsedBytes, NoNeighbours, NoNeighboursBut, Tiled, InsertAt;
    var a := h.addrs[i];
    var x: Addr := a + G + newSize;
    TiledApart(h.addrs, h.used, 0, size + 2 * G, i, i + 1);
    AlignedSum(G, a, newSize);
    TiledInsert(h.addrs, h.used, 0, size + 2 * G, i + 1, x);
    TiledNew(h.addrs, h.used, size, x);
    CutBytes(h.addrs, h.used, i + 1, x);
    CutApart(h.addrs, h.used, i + 1, x);
    InsertMembers(h.addrs, i + 1, x);
    CutEnd(h.addrs, i + 1, x);
  }

  lemma CutEnd(addrs: seq<Addr>, i: nat, x: Addr)
    requires i < |addrs|
    ensures var r := InsertAt(addrs, i, x); r[|r| - 1] == addrs[|addrs| - 1]
  {
  }

  /** After a shrink `lfree` is lowest exactly when it was below the shrunk block or moved with the merge. */
  lemma ShrinkLowest(h: Heap, size: nat, i: nat, newSize: nat)
    requires Inv(h, size) && Lowest(h) && i + 1 < |h.addrs| && h.addrs[i] in h.used
    requires newSize % 4 == 0 && newSize + G <= h.addrs[i + 1] - h.addrs[i] - G
    ensures Lowest(Shrink(h, i, newSize)) <==>
            h.lfree < h.addrs[i] || (h.lfree == h.addrs[i + 1] && h.lfree !in h.used)
  {
    hide Inv, Shrink, Lowest;
    ShrinkShape(h, size, i, newSize);
    InvPieces(h, size);
    Between(h, i);
    LowestOrNot(h, Shrink(h, i, newSize), i, h.addrs[i] + G + newSize);
  }

  lemma LowestOrNot(h: Heap, h': Heap, i: nat, x: Addr)
    requires Lowest(h) && i + 1 < |h.addrs| && h.addrs[i] in h.used && h.addrs[i] < x < h.addrs[i + 1]
    requires h.lfree in h.addrs && (h.lfree <= h.addrs[i] || h.addrs[i + 1] <= h.lfree)
    requires h.lfree == h.addrs[i] ==> h.lfree !in h.used
    requires h'.used == h.used && x in h'.addrs && x !in h.used && forall u :: u in h'.addrs ==> u in h.addrs || u == x
    requires h'.lfree == if h.addrs[i + 1] !in h.used && h.lfree == h.addrs[i + 1] then x else h.lfree
    ensures Lowest(h') <==> h.lfree < h.addrs[i] || (h.lfree == h.addrs[i + 1] && h.lfree !in h.used)
  {
  }

  /** Nothing lies between two neighbouring headers, and a used block other than `heap_end` is not `lfree`. */
  lemma Between(h: Heap, i: nat)
    requires Spaced(G, h.addrs) && FreeOrEnd(h.addrs, h.used, h.lfree) && i + 1 < |h.addrs|
    ensures h.lfree <= h.addrs[i] || h.addrs[i + 1] <= h.lfree
    ensures h.lfree == h.addrs[i] ==> h.lfree !in h.used
  {
    var k := Index(h.addrs, h.lfree);
    if k < i { assert h.addrs[k] + G <= h.addrs[i]; }
    if k > i + 1 { assert h.addrs[i + 1] + G <= h.addrs[k]; }
    assert h.addrs[i] + G <= h.addrs[i + 1];
    if i + 1 < |h.addrs| - 1 { assert h.addrs[i + 1] + G <= h.addrs[|h.addrs| - 1]; }
  }

  /** A shrink writes one free header, whether or not it swallows the block behind. */
  lemma ShrinkShape(h: Heap, size: nat, i: nat, newSize: nat)
    requires Inv(h, size) && i + 1 < |h.addrs| && h.addrs[i] in h.used
    requires newSize % 4 == 0 && newSize + G <= h.addrs[i + 1] - h.addrs[i] - G
    ensures var h' := Shrink(h, i, newSize); var x: Addr := h.addrs[i] + G + newSize;
            && h'.used == h.used && x in h'.addrs && x !in h.used
            && (forall u :: u in h'.addrs ==> u in h.addrs || u == x)
            && h'.lfree == (if h.addrs[i + 1] !in h.used && h.lfree == h.addrs[i + 1] then x else h.lfree)
            && i + 1 < |h'.addrs| && h'.addrs[i] == h.addrs[i] && h'.addrs[i + 1] == x
  {
    hide UsedBytes, NoNeighbours, NoNeighboursBut, Tiled, Spaced, FreeOrEnd, InsertAt, DropAt;
    var x: Addr := h.addrs[i] + G + newSize;
    CutSound(h, size, i, newSize);
    InsertMembers(h.addrs, i + 1, x);
    var r := InsertAt(h.addrs, i + 1, x);
    if h.addrs[i + 1] !in h.used {
      assert DropAt(r, i + 2)[i + 1] == x;
      assert forall u :: u in DropAt(r, i + 2) ==> u in r;
    } else {
      assert r[i + 1] == x;
    }
  }

  /** With `lfree` at `heap_end` nothing is served, even after a shrink left a free block. */
  lemma BlindAtEnd(h: Heap, size: nat, request: Size)
    requires Inv(h, size) && h.lfree == h.addrs[|h.addrs| - 1]
    ensures Malloc(h, size, request) == (h, None)
  {
  }

  // ---- Live blocks keep their place ----

  predicate Live(h: Heap, u: Addr) {
    LiveIn(h.addrs, h.used, u)
  }

  predicate Stays(h: Heap, h': Heap, u: Addr) {
    StaysIn(G, h.addrs, h.used, h'.addrs, h'.used, u)
  }

  lemma SameStays(h: Heap, h': Heap, u: Addr)
    requires h'.addrs == h.addrs && (u in h.used ==> u in h'.used)
    ensures Stays(h, h', u)
  {
  }

  lemma StaysTwice(h: Heap, h1: Heap, h2: Heap, u: Addr)
    requires Stays(h, h1, u) && Stays(h1, h2, u)
    ensures Stays(h, h2, u)
  {
  }

  lemma TakeStays(h: Heap, size: nat, i: nat, want: nat, u: Addr)
    requires Inv(h, size) && Fits(h.addrs, h.used, i, want) && want % 4 == 0
    ensures Stays(h, Take(h, i, want), u)
  {
    hide Inv, NextFree, InsertAt, SizeAt, LiveIn, Spaced, FreeOrEnd, Lowest;
    var a := h.addrs[i];
    var x: Addr := a + G + want;
    var h1 := h.(used := h.used + {a});
    InvPieces(h, size);
    TakeKeepsInv(h, size, i, want);
    InvPieces(Take(h, i, want), size);
    SameStays(h, h1, u);
    if h.addrs[i + 1] - a - G >= want + G + MinSize {
      if u != a {
        InsertStays(G, h.addrs, h1.used, i + 1, x, u);
      } else {
        NotLive(h, u);
      }
    }
  }

  lemma NotLive(h: Heap, u: Addr)
    requires u !in h.used
    ensures !LiveIn(h.addrs, h.used, u)
  {
  }

  lemma MallocStays(h: Heap, size: nat, request: Size, u: Addr)
    requires Inv(h, size)
    ensures Stays(h, Malloc(h, size, request).0, u)
  {
    hide Inv, Take, Search, Stays, Candidate;
    SameStays(h, h, u);
    InvPieces(h, size);
    var want := Want(request);
    if request != 0 && Aligned4(request) <= size {
      SearchServes(h, size, want);
      match Search(h.addrs, h.used, Index(h.addrs, h.lfree), size - want, want)
      case None =>
      case Some(i) => TakeStays(h, size, i, want, u);
    }
  }

  lemma PlugStays(h: Heap, size: nat, i: nat, u: Addr)
    requires Sound(h, size) && i + 1 < |h.addrs| && h.addrs[i] !in h.used && NoNeighboursBut(h.addrs, h.used, i)
    ensures Stays(h, PlugHoles(h, i), u)
  {
    hide Sound, NoNeighboursBut, NoNeighboursAfter, DropAt, SizeAt, LiveIn, Lowest, Inv;
    ForwardKeeps(h, size, i);
    var h1 := PlugForward(h, i);
    BackwardKeeps(h1, size, i);
    SoundSpaced(h, size);
    SoundSpaced(h1, size);
    InvPieces(PlugBackward(h1, i), size);
    SameStays(h, h, u);
    SameStays(h1, h1, u);
    if LiveIn(h.addrs, h.used, u) {
      LiveNot(h, u, i);
      if h.addrs[i + 1] !in h.used { DropStays(G, h.addrs, h.used, i + 1, u); }
      if i > 0 && h1.addrs[i - 1] !in h.used {
        LiveNot(h, u, i - 1);
        DropStays(G, h1.addrs, h1.used, i, u);
      }
      StaysTwice(h, h1, PlugHoles(h, i), u);
    }
  }

  lemma LiveNot(h: Heap, u: Addr, i: nat)
    requires LiveIn(h.addrs, h.used, u) && i < |h.addrs| && h.addrs[i] !in h.used
    ensures u != h.addrs[i]
  {
  }

  lemma SoundSpaced(h: Heap, size: nat)
    requires Sound(h, size)
    ensures Spaced(G, h.addrs)
  {
  }

  lemma FreeStays(h: Heap, size: nat, i: nat, u: Addr)
    requires Inv(h, size) && i + 1 < |h.addrs| && h.addrs[i] in h.used && u != h.addrs[i]
    ensures Stays(h, Free(h, i), u)
  {
    hide Inv, Sound, Lowest, PlugHoles, NoNeighboursBut, Stays;
    var a := h.addrs[i];
    var h1 := Heap(h.addrs, h.used - {a}, if a < h.lfree then a else h.lfree,
                   h.usedMem - (h.addrs[i + 1] - a), h.maxMem);
    FreedSound(h, size, i);
    SameStays(h, h1, u);
    PlugStays(h1, size, i, u);
    StaysTwice(h, h1, Free(h, i), u);
  }

  lemma ShrinkStays(h: Heap, size: nat, i: nat, newSize: nat, u: Addr)
    requires Inv(h, size) && i + 1 < |h.addrs| && h.addrs[i] in h.used && u != h.addrs[i]
    requires newSize % 4 == 0 && newSize + G <= h.addrs[i + 1] - h.addrs[i] - G
    ensures Stays(h, Shrink(h, i, newSize), u)
  {
    hide Inv, Sound, PlugHoles, NoNeighboursBut, InsertAt, SizeAt, LiveIn;
    CutSound(h, size, i, newSize);
    var payload := h.addrs[i + 1] - h.addrs[i] - G;
    var x: Addr := h.addrs[i] + G + newSize;
    var h1 := h.(addrs := InsertAt(h.addrs, i + 1, x), usedMem := h.usedMem - (payload - newSize));
    InvPieces(h, size);
    SoundSpaced(h1, size);
    InsertStays(G, h.addrs, h.used, i + 1, x, u);
    PlugStays(h1, size, i + 1, u);
    StaysTwice(h, h1, Shrink(h, i, newSize), u);
  }

  // ---- rt_realloc and runs ----

  /** `rt_free` of the block headed at `a`. */
  function FreeAddr(h: Heap, a: Addr): Heap
    requires Live(h, a)
  {
    Free(h, Index(h.addrs, a))
  }

  /** The part of a reallocation that leaves the block in place, and whether it applies. */
  function Resize(h: Heap, a: Addr, newSize: nat): (Heap, bool)
    requires Live(h, a)
  {
    var payload := SizeAt(G, h.addrs, a);
    if payload == newSize then (h, true)
    else if newSize + G + MinSize < payload then (Shrink(h, Index(h.addrs, a), newSize), true)
    else (h, false)
  }

  /** `rt_realloc` of the block headed at `at`. */
  function Realloc(h: Heap, size: nat, at: Option<Addr>, request: Size): (Heap, Option<Addr>)
    requires h.lfree in h.addrs && (at.Some? ==> Live(h, at.value))
  {
    var newSize := Aligned4(request);
    if newSize > size then (h, None)
    else
      match at
      case None => Malloc(h, size, newSize)
      case Some(a) =>
        var (h1, done) := Resize(h, a, newSize);
        if done then (h1, at) else Move(h, size, a, newSize)
  }

  /** The block moves: allocate, copy the payload, free. */
  function Move(h: Heap, size: nat, a: Addr, newSize: Size): (Heap, Option<Addr>)
    requires h.lfree in h.addrs
  {
    var (h1, q) := Malloc(h, size, newSize);
    if q.Some? && Live(h1, a) then (FreeAddr(h1, a), q) else (h1, None)
  }

  lemma FreeAddrKeeps(h: Heap, size: nat, a: Addr)
    requires Inv(h, size) && Live(h, a)
    ensures Inv(FreeAddr(h, a), size) && a !in FreeAddr(h, a).used
    ensures Lowest(h) ==> Lowest(FreeAddr(h, a))
    ensures forall u: Addr :: u != a ==> Stays(h, FreeAddr(h, a), u)
  {
    hide Inv, Stays, Lowest;
    var i := Index(h.addrs, a);
    FreeKeepsInv(h, size, i);
    forall u: Addr | u != a ensures Stays(h, FreeAddr(h, a), u) {
      FreeStays(h, size, i, u);
    }
  }

  lemma ResizeKeeps(h: Heap, size: nat, a: Addr, newSize: nat)
    requires Inv(h, size) && Live(h, a) && newSize % 4 == 0
    ensures var (h', done) := Resize(h, a, newSize);
            && Inv(h', size)
            && (done ==> Live(h', a) && SizeAt(G, h'.addrs, a) == newSize)
            && (!done ==> h' == h)
            && (forall u: Addr :: u != a ==> Stays(h, h', u))
  {
    hide Inv, Stays, Shrink;
    var i := Index(h.addrs, a);
    var (h', done) := Resize(h, a, newSize);
    forall u: Addr | u != a ensures Stays(h, h, u) {
      SameStays(h, h, u);
    }
    if newSize + G + MinSize < SizeAt(G, h.addrs, a) {
      ShrinkKeepsInv(h, size, i, newSize);
      ShrinkShape(h, size, i, newSize);
      InvPieces(h', size);
      SizeAtIndex(G, h'.addrs, i);
      forall u: Addr | u != a ensures Stays(h, h', u) {
        ShrinkStays(h, size, i, newSize, u);
      }
    }
  }

  lemma MallocLive(h: Heap, size: nat, request: Size)
    requires Inv(h, size)
    ensures var (h', r) := Malloc(h, size, request);
            && Inv(h', size)
            && (forall u: Addr :: Stays(h, h', u))
            && (r.None? ==> h' == h)
            && (r.Some? ==> Live(h', r.value) && SizeAt(G, h'.addrs, r.value) >= Want(request) && r.value !in h.used)
  {
    hide Inv, Stays, Malloc, Lowest, Candidate, HandsOutLowest, Live, SizeAt;
    InvPieces(h, size);
    var (h', r) := Malloc(h, size, request);
    MallocKeepsInv(h, size, request);
    forall u: Addr ensures Stays(h, h', u) {
      MallocStays(h, size, request, u);
    }
    if r.Some? {
      InvPieces(h', size);
      ServedSize(h, size, request);
    }
  }

  lemma ServedSize(h: Heap, size: nat, request: Size)
    requires h.lfree in h.addrs && Malloc(h, size, request).1.Some? && Spaced(G, Malloc(h, size, request).0.addrs)
    ensures var (h', r) := Malloc(h, size, request);
            Live(h', r.value) && SizeAt(G, h'.addrs, r.value) >= Want(request) && r.value !in h.used
  {
    hide Spaced, Search, Take;
    var want := Want(request);
    TakenSize(h, Search(h.addrs, h.used, Index(h.addrs, h.lfree), size - want, want).value, want);
  }

  lemma TakenSize(h: Heap, i: nat, want: nat)
    requires Fits(h.addrs, h.used, i, want) && Spaced(G, Take(h, i, want).addrs)
    ensures var h' := Take(h, i, want); Live(h', h.addrs[i]) && SizeAt(G, h'.addrs, h.addrs[i]) >= want
  {
    hide Spaced, NextFree;
    var h' := Take(h, i, want);
    assert h'.addrs[i] == h.addrs[i];
    SizeAtIndex(G, h'.addrs, i);
  }

  /** What a reallocation leaves: failure changes nothing, success a live block of the size asked for. */
  predicate Served(h: Heap, h': Heap, at: Option<Addr>, r: Option<Addr>, newSize: nat) {
    && (r.None? ==> h' == h)
    && (r.Some? ==> Live(h', r.value) && SizeAt(G, h'.addrs, r.value) >= newSize)
    && (r.Some? && r != at ==> r.value !in h.used && (at.Some? ==> at.value !in h'.used))
  }

  ghost predicate OthersStay(h: Heap, h': Heap, at: Option<Addr>) {
    forall u: Addr :: Some(u) != at ==> Stays(h, h', u)
  }

  lemma ReallocKeepsInv(h: Heap, size: nat, at: Option<Addr>, request: Size)
    requires Inv(h, size) && h.lfree in h.addrs && (at.Some? ==> Live(h, at.value))
    ensures var (h', r) := Realloc(h, size, at, request);
            && Inv(h', size)
            && Served(h, h', at, r, Aligned4(request))
            && OthersStay(h, h', at)
  {
    hide Inv, Stays, Resize, Malloc, Move, Live, SizeAt, Aligned4;
    var newSize := Aligned4(request);
    if newSize > size {
      KeptAll(h);
    } else {
      match at
      case None =>
        MallocLive(h, size, newSize);
        WantFits(newSize);
      case Some(a) =>
        ResizeKeeps(h, size, a, newSize);
        if !Resize(h, a, newSize).1 {
          MoveKeeps(h, size, a, newSize);
          WantFits(newSize);
        }
    }
  }

  lemma KeptAll(h: Heap)
    ensures forall u: Addr :: Stays(h, h, u)
  {
  }

  lemma WantFits(request: Size)
    requires request % 4 == 0
    ensures Want(request) >= request
  {
  }

  lemma MoveKeeps(h: Heap, size: nat, a: Addr, newSize: Size)
    requires Inv(h, size) && h.lfree in h.addrs && Live(h, a)
    ensures var (h', r) := Move(h, size, a, newSize);
            && Inv(h', size)
            && (r.None? ==> h' == h)
            && (r.Some? ==> Live(h', r.value) && SizeAt(G, h'.addrs, r.value) >= Want(newSize)
                            && r.value !in h.used && a !in h'.used)
            && forall u: Addr :: u != a ==> Stays(h, h', u)
  {
    hide Inv, Malloc, FreeAddr, SizeAt, LiveIn;
    var (h1, q) := Malloc(h, size, newSize);
    MallocLive(h, size, newSize);
    assert Stays(h, h1, a);
    if q.Some? {
      FreeAddrKeeps(h1, size, a);
      var h2 := FreeAddr(h1, a);
      LiveUsed(h, a);
      assert Stays(h1, h2, q.value);
      forall u: Addr | u != a ensures Stays(h, h2, u) {
        assert Stays(h, h1, u) && Stays(h1, h2, u);
      }
    }
  }

  lemma LiveUsed(h: Heap, a: Addr)
    requires Live(h, a)
    ensures a in h.used
  {
  }

  /** The locked regions. */
  datatype Call = MallocCall(request: Size) | FreeCall(a: Addr) | ResizeCall(a: Addr, request: Size)

  predicate Legal(h: Heap, call: Call) {
    h.lfree in h.addrs && (call.MallocCall? || Live(h, call.a))
  }

  function Step(h: Heap, size: nat, call: Call): Heap
    requires Legal(h, call)
  {
    match call
    case MallocCall(request) => Malloc(h, size, request).0
    case FreeCall(a) => FreeAddr(h, a)
    case ResizeCall(a, request) => Resize(h, a, Aligned4(request)).0
  }

  lemma StepKeepsInv(h: Heap, size: nat, call: Call)
    requires Inv(h, size) && Legal(h, call)
    ensures Inv(Step(h, size, call), size)
    ensures Lowest(h) && !call.ResizeCall? ==> Lowest(Step(h, size, call))
  {
    hide Inv, Malloc, FreeAddr, Resize, Lowest, Aligned4, LiveIn;
    match call
    case MallocCall(request) => MallocKeepsInv(h, size, request);
    case FreeCall(a) => FreeAddrKeeps(h, size, a);
    case ResizeCall(a, request) => ResizeKeeps(h, size, a, Aligned4(request));
  }

  ghost predicate LegalRun(h: Heap, size: nat, calls: seq<Call>)
    decreases |calls|
  {
    calls == [] || (Legal(h, calls[0]) && LegalRun(Step(h, size, calls[0]), size, calls[1..]))
  }

  ghost function Run(h: Heap, size: nat, calls: seq<Call>): Heap
    requires LegalRun(h, size, calls)
    decreases |calls|
  {
    if calls == [] then h else Run(Step(h, size, calls[0]), size, calls[1..])
  }

  /** Every run keeps the structure; as long as nothing shrinks in place, `lfree` is the lowest free block. */
  lemma {:induction false} AnyRun(h: Heap, size: nat, calls: seq<Call>)
    requires Inv(h, size) && LegalRun(h, size, calls)
    ensures Inv(Run(h, size, calls), size)
    ensures Lowest(h) && (forall c :: c in calls ==> !c.ResizeCall?) ==> Lowest(Run(h, size, calls))
    decreases |calls|
  {
    hide Inv, Lowest, Step, Legal;
    if calls != [] {
      StepKeepsInv(h, size, calls[0]);
      AnyRun(Step(h, size, calls[0]), size, calls[1..]);
      assert calls[0] in calls;
      assert forall c :: c in calls[1..] ==> c in calls;
    }
  }
}
