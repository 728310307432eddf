/**
 The memory heap of memheap.c on values: the addresses of its block headers in order, which of them are
 used, and the free list. A block's payload runs from the end of its header to the next header. This module has
 the four changes every operation is made of, taking, giving back, splitting and merging, and what each keeps of
 the structure and of the free bytes.
 */
module MemHeap {
  import opened Common
  import opened Waiting
  import opened BlockList

  /** RT_MEMHEAP_SIZE: a header of six words, already a multiple of RT_ALIGN_SIZE. */
  const H: nat := 24
  const MinAlloc: nat := 12
  const Word: int := 0x1_0000_0000

  type Size = x: int | 0 <= x < 0x1_0000_0000

  /** MEMITEM_SIZE of the block at position `i`. */
  function Payload(addrs: seq<Addr>, i: nat): int
    requires i + 1 < |addrs|
  {
    addrs[i + 1] - addrs[i] - H
  }

  // ---- The invariant ----

  /** The headers, which of them are used, and the free list. */
  datatype Blocks = Blocks(addrs: seq<Addr>, used: set<Addr>, free: seq<Addr>)

  datatype Heap = Heap(b: Blocks, available: int, maxUsed: int)

  /** The free list holds exactly the unused headers, once each. */
  ghost predicate Listed(b: Blocks) {
    NoDup(b.free) && forall u :: u in b.free <==> u in b.addrs && u !in b.used
  }

  ghost predicate Sound(b: Blocks, start: Addr, size: nat) {
    Tiled(H, b.addrs, b.used, start, size) && Listed(b)
  }

  ghost predicate Inv(h: Heap, start: Addr, size: nat) {
    && Sound(h.b, start, size)
    && NoNeighbours(h.b.addrs, h.b.used)
    && h.available == FreeBytes(H, h.b.addrs, h.b.used)
    && h.maxUsed >= size - h.available
  }

  // ---- The four changes every operation is made of ----

  /** A free block becomes used. */
  function Use(b: Blocks, a: Addr): Blocks {
    Blocks(b.addrs, b.used + {a}, Remove(b.free, a))
  }

  /** A used block becomes free and goes to the head of the free list. */
  function Release(b: Blocks, a: Addr): Blocks {
    Blocks(b.addrs, b.used - {a}, [a] + b.free)
  }

  /** A free header is written at position `i` and goes to the head of the free list. */
  function Cut(b: Blocks, i: nat, x: Addr): Blocks
    requires i <= |b.addrs|
  {
    Blocks(InsertAt(b.addrs, i, x), b.used, [x] + b.free)
  }

  /** The free header at position `i` disappears into the block before it. */
  function Join(b: Blocks, i: nat): Blocks
    requires i < |b.addrs|
  {
    Blocks(DropAt(b.addrs, i), b.used, Remove(b.free, b.addrs[i]))
  }

  lemma UseSound(b: Blocks, i: nat, start: Addr, size: nat)
    requires Sound(b, start, size) && i + 1 < |b.addrs| && b.addrs[i] !in b.used
    ensures Sound(Use(b, b.addrs[i]), start, size)
    ensures FreeBytes(H, b.addrs, b.used + {b.addrs[i]}) == FreeBytes(H, b.addrs, b.used) - Payload(b.addrs, i)
    ensures NoNeighbours(b.addrs, b.used) ==> NoNeighbours(b.addrs, b.used + {b.addrs[i]})
  {
    MarkBytes(H, H, b.addrs, b.used, i);
    RemoveMembers(b.free, b.addrs[i]);
    hide FreeBytes, Remove, Spaced, Aligned;
    if NoNeighbours(b.addrs, b.used) {
      forall k | 0 <= k < |b.addrs| ensures Apart(b.addrs, b.used + {b.addrs[i]}, k) {
        assert Apart(b.addrs, b.used, k);
      }
    }
  }

  lemma ReleaseSound(b: Blocks, i: nat, start: Addr, size: nat)
    requires Sound(b, start, size) && i + 1 < |b.addrs| && b.addrs[i] in b.used
    ensures Sound(Release(b, b.addrs[i]), start, size)
    ensures FreeBytes(H, b.addrs, b.used - {b.addrs[i]}) == FreeBytes(H, b.addrs, b.used) + Payload(b.addrs, i)
    ensures NoNeighbours(b.addrs, b.used) ==> NoNeighboursBut(b.addrs, b.used - {b.addrs[i]}, i)
  {
    var a := b.addrs[i];
    assert b.used - {a} + {a} == b.used;
    assert b.addrs[i] + H <= b.addrs[|b.addrs| - 1];
    hide FreeBytes, Aligned;
    MarkBytes(H, H, b.addrs, b.used - {a}, i);
    ReleaseApart(H, b.addrs, b.used, i);
    hide Spaced, NoDup, Apart, NoNeighbours, NoNeighboursBut;
    NewHead(b.free, a);
  }

  lemma CutSound(b: Blocks, i: nat, x: Addr, start: Addr, size: nat)
    requires Sound(b, start, size) && 0 < i < |b.addrs| && b.addrs[i - 1] in b.used
    requires b.addrs[i - 1] + H <= x && x + H <= b.addrs[i] && (x - start) % 4 == 0
    ensures Sound(Cut(b, i, x), start, size)
    ensures FreeBytes(H, InsertAt(b.addrs, i, x), b.used) == FreeBytes(H, b.addrs, b.used) + (b.addrs[i] - x - H)
    ensures NoNeighbours(b.addrs, b.used) ==> NoNeighboursBut(InsertAt(b.addrs, i, x), b.used, i)
  {
    hide FreeBytes, InsertAt, NoDup, NoNeighbours, NoNeighboursBut;
    InsertBytes(H, b.addrs, b.used, i, x);
    SpacedInsert(H, b.addrs, i, x);
    SpacedMember(H, b.addrs, i, x);
    hide Spaced;
    InsertMembers(b.addrs, i, x);
    NewHead(b.free, x);
    CutApart(b.addrs, b.used, i, x);
  }

  lemma JoinSound(b: Blocks, i: nat, start: Addr, size: nat)
    requires Sound(b, start, size) && 0 < i < |b.addrs| && b.addrs[i] !in b.used
    ensures Sound(Join(b, i), start, size)
    ensures i < |b.addrs| - 1
    ensures FreeBytes(H, DropAt(b.addrs, i), b.used)
            == FreeBytes(H, b.addrs, b.used) + (if b.addrs[i - 1] in b.used then -Payload(b.addrs, i) else H)
  {
    hide FreeBytes, DropAt, NoDup, Remove;
    assert i < |b.addrs| - 1;
    assert b.addrs[i] + H <= b.addrs[|b.addrs| - 1];
    DropBytes(H, b.addrs, b.used, i);
    SpacedDrop(H, b.addrs, i);
    DropMembers(H, b.addrs, i);
    hide Spaced;
    RemoveMembers(b.free, b.addrs[i]);
  }
}
