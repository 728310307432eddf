/**
 The alignment that slab.c documents: every allocation whose size is a power of two is aligned to it. It holds
 up to a page; above, exactly where the zone or the page run happens to start at a multiple of the size. The
 base offset of a zone is rounded up to the chunk size if that is a power of two, but pages are only aligned to
 pages, so what is aligned inside a zone need not be aligned in memory. Below eight bytes a request gets a chunk
 of eight, which is aligned to all of 1, 2 and 4.
 */
module SlabAlign {
  import opened Common
  import Pages
  import opened SizeClass
  import opened Slab
  import opened SlabHeap

  lemma {:induction false} Powers(n: nat)
    requires PowerOf2(n) && n < 16384
    ensures n in {1, 2, 4, 8, 16, 32, 64, 128, 256, 512, 1024, 2048, 4096, 8192}
    decreases n
  {
    if n > 1 {
      Powers(n / 2);
    }
  }

  lemma AddMultiple(x: nat, q: nat, n: nat)
    requires n > 0
    ensures (x + q * n) % n == x % n
  {
    var d, r := x / n, x % n;
    assert x == d * n + r;
    assert (d + q) * n == d * n + q * n;
    Division(x + q * n, d + q, r, n);
  }

  lemma {:induction false} PageOver(n: nat) returns (m: nat)
    requires PowerOf2(n) && n <= PageSize
    ensures m * n == PageSize
    decreases PageSize - n
  {
    Powers(n);
    if n == PageSize {
      m := 1;
    } else {
      assert PowerOf2(2 * n);
      var half := PageOver(2 * n);
      m := 2 * half;
      assert m * n == half * (2 * n);
    }
  }

  lemma {:induction false} OverPage(n: nat) returns (m: nat)
    requires PowerOf2(n) && n >= PageSize
    ensures n == m * PageSize && m > 0
    decreases n
  {
    if n < 16384 {
      Powers(n);
      m := if n == PageSize then 1 else 2;
    } else {
      var half := OverPage(n / 2);
      m := 2 * half;
    }
  }

  lemma RoundedMultiple(q: nat, unit: nat)
    requires q > 0 && unit > 0
    ensures RoundUp(q * unit, unit) == q * unit
  {
    hide RoundUp;
    MulMonotone(1, q, unit);
    Units(q * unit, unit);
    var r := RoundUp(q * unit, unit) / unit;
    assert (q - 1) * unit == q * unit - unit;
    if r < q { MulMonotone(r, q - 1, unit); }
    if q < r { MulMonotone(q, r - 1, unit); }
  }

  /** A power of two is its own chunk size, from eight bytes on. */
  lemma {:induction false} ExactClass(n: Request)
    requires 1 <= n < 16384 && PowerOf2(n)
    ensures ZoneIndex(n).1 == if n < 8 then 8 else n
  {
    hide RoundUp, PowerOf2;
    if n < 8 {
      Powers(n);
      SmallRounded(n);
    } else {
      var q, unit := Band(n);
      RoundedMultiple(q, unit);
    }
  }

  lemma SmallRounded(n: nat)
    requires 0 < n < 8
    ensures RoundUp(n, 8) == 8
  {
  }

  /** The unit to which `zoneindex` rounds a power of two, and how often it holds it. */
  lemma Band(n: Request) returns (q: nat, unit: nat)
    requires 8 <= n < 16384 && PowerOf2(n)
    ensures n == q * unit && q > 0 && unit > 0 && ZoneIndex(n).1 == RoundUp(n, unit)
  {
    hide RoundUp;
    Powers(n);
    unit := if n < 128 then 8 else if n < 256 then 16 else if n < 512 then 32 else if n < 1024 then 64
            else if n < 2048 then 128 else if n < 4096 then 256 else if n < 8192 then 512 else 1024;
    q := if n == 16 then 2 else if n == 32 then 4 else if n == 64 then 8 else if n == 8 then 1 else 8;
  }

  lemma PageMultiple(n: nat, z: Pages.Page)
    requires n < 16384 && PowerOf2(n)
    ensures (z * PageSize) % n == 0 <==> n <= PageSize || z % 2 == 0
  {
    hide PowerOf2;
    if n <= PageSize {
      var m := PageOver(n);
      assert z * PageSize == z * m * n;
      Division(z * PageSize, z * m, 0, n);
    } else {
      assert n == 8192 by { Powers(n); }
    }
  }

  /** The chunks of a power-of-two class lie at multiples of their size from the first page of the zone. */
  lemma {:induction false} FromFirstPage(n: Request, z: Pages.Page, k: nat)
    requires 1 <= n < 16384 && PowerOf2(n)
    ensures ZoneIndex(n).1 > 0
    ensures Chunk(z, ZoneIndex(n).1, k) % n == (z * PageSize) % n
  {
    hide RoundUp, ZoneIndex, PowerOf2;
    ExactClass(n);
    var chunk := ZoneIndex(n).1;
    OffsetMultiple(chunk);
    var q: nat, m: nat := Offset(chunk) / chunk + k, if n >= 8 then 1 else 8 / n;
    assert chunk == m * n by { Powers(n); }
    assert Chunk(z, chunk, k) == z * PageSize + q * chunk by {
      assert q * chunk == Offset(chunk) / chunk * chunk + k * chunk;
    }
    assert q * chunk == q * m * n;
    AddMultiple(z * PageSize, q * m, n);
  }

  lemma OffsetMultiple(chunk: nat)
    requires chunk >= 8 && (PowerOf2(chunk) || chunk == 8)
    ensures Offset(chunk) / chunk >= 0 && Offset(chunk) == Offset(chunk) / chunk * chunk
  {
    hide RoundUp, PowerOf2;
    Units(HeaderSize, chunk);
  }

  /** So they are aligned up to a page; the only larger class that is a power of two needs an even first page. */
  lemma ChunkAligned(n: Request, z: Pages.Page, k: nat)
    requires 1 <= n < 16384 && PowerOf2(n)
    ensures ZoneIndex(n).1 > 0
    ensures Chunk(z, ZoneIndex(n).1, k) % n == 0 <==> n <= PageSize || z % 2 == 0
  {
    hide Chunk, ZoneIndex, PowerOf2;
    FromFirstPage(n, z, k);
    PageMultiple(n, z);
  }

  /** A page run starts at a multiple of a power of two above a page exactly if its page number does, in pages. */
  lemma RunAligned(n: nat, p: Pages.Page)
    requires PowerOf2(n) && n >= PageSize
    ensures n / PageSize > 0
    ensures (p * PageSize) % n == 0 <==> p % (n / PageSize) == 0
  {
    hide PowerOf2;
    var m := OverPage(n);
    var q, r := p / m, p % m;
    assert p == q * m + r;
    assert p * PageSize == q * n + r * PageSize by {
      assert q * n == q * m * PageSize;
    }
    Division(p * PageSize, q, r * PageSize, n);
  }

  /** The first page of the zone that will serve class `i`: one with free chunks, else a spare zone, else a new one. */
  function ServingPage(s: State, zp: ZonePages, i: nat): Option<Pages.Page> {
    if At(s.lists, i) != [] then Some(At(s.lists, i)[0])
    else if s.spare != [] then Some(s.spare[0])
    else Pages.AllocRuns(s.pool.free, zp).1
  }

  /** The chunk comes from that zone, and there is one exactly if there is such a zone. */
  lemma {:induction false} ChunkServed(s: State, zp: ZonePages, all: set<Pages.Page>, size: Request)
    requires Inv(s, zp, all) && 1 <= size < Limit(zp)
    ensures 0 <= ZoneIndex(size).0
    ensures var page := ServingPage(s, zp, ZoneIndex(size).0); var (s', r) := Malloc(s, zp, size);
            && (r.Some? <==> page.Some?)
            && (r.Some? ==> page.value in s'.zones && InZone(page.value, s'.zones[page.value], r.value)
                            && s'.zones[page.value].chunk == ZoneIndex(size).1)
  {
    hide ZoneIndex, ChunkOf, Chunk, Core, Pages.AllocRuns;
    SmallestClass(size);
    ClassFits(size, zp);
    var (i, chunk) := ZoneIndex(size);
    if At(s.lists, i) != [] {
      HeadServes(s, zp, all, i);
    } else if s.spare != [] {
      FirstServes(s.(spare := s.spare[1..]), zp, s.spare[0], i, chunk);
    } else {
      var (pool, p) := TakePages(s.pool, zp);
      if p.Some? {
        FirstServes(s.(pool := pool, usage := SetSmall(s.usage, p.value, zp)), zp, p.value, i, chunk);
      }
    }
  }

  lemma HeadServes(s: State, zp: ZonePages, all: set<Pages.Page>, i: nat)
    requires Inv(s, zp, all) && At(s.lists, i) != [] && i < Classes
    ensures var z := At(s.lists, i)[0]; var (s', r) := MallocChunk(s, i);
            r.Some? && z in s'.zones && InZone(z, s'.zones[z], r.value) && s'.zones[z].chunk == ChunkOf(i)
  {
    hide ZoneOk, LiveIn, Pop, Indexed, Owners, ArrayOk, Pages.Inv, ChunkOf, Chunk;
    var z := At(s.lists, i)[0];
    ListHead(s, i);
    ZoneAt(s, zp, z);
    var zone := s.zones[z];
    PopKeeps(zp, z, zone);
    PoppedFields(z, zone);
    LiveInZone(zp, z, Pop(z, zone).0, Pop(z, zone).1);
    ZoneClass(zp, z, zone);
  }

  lemma ZoneClass(zp: ZonePages, z: Pages.Page, zone: Zone)
    requires ZoneOk(zp, z, zone)
    ensures zone.zi < Classes && zone.chunk == ChunkOf(zone.zi)
  {
  }

  lemma FirstServes(s: State, zp: ZonePages, z: Pages.Page, i: nat, chunk: nat)
    requires chunk > 0
    ensures var (s', r) := OpenZone(s, zp, z, i, chunk);
            r.Some? && z in s'.zones && InZone(z, s'.zones[z], r.value) && s'.zones[z].chunk == chunk
  {
    hide Chunk, Capacity;
    var (s', r) := OpenZone(s, zp, z, i, chunk);
    assert Issued(z, s'.zones[z], r.value, 0);
  }

  /** A large block comes from the run that the page allocator finds. */
  lemma LargeServed(s: State, zp: ZonePages, size: Request)
    requires size >= Limit(zp)
    ensures var n := LargePages(size); var r := Malloc(s, zp, size).1;
            && (r.Some? <==> n > 0 && Pages.AllocRuns(s.pool.free, n).1.Some?)
            && (r.Some? ==> r.value == Pages.AllocRuns(s.pool.free, n).1.value * PageSize)
  {
    hide LargePages, Pages.AllocRuns;
  }

  /** An allocation fails exactly if nothing is asked for, or no page can serve it: `malloc(0)` gives null. */
  lemma FailsExactly(s: State, zp: ZonePages, all: set<Pages.Page>, size: Request)
    requires Inv(s, zp, all)
    ensures 0 < size < Limit(zp) ==> 0 <= ZoneIndex(size).0
    ensures Malloc(s, zp, size).1.None? <==>
            if size == 0 then true
            else if size < Limit(zp) then ServingPage(s, zp, ZoneIndex(size).0).None?
            else LargePages(size) == 0 || Pages.AllocRuns(s.pool.free, LargePages(size)).1.None?
  {
    hide Inv, ZoneIndex, LargePages, Pages.AllocRuns, ServingPage, InZone, MallocLarge, MallocChunk, OpenZone,
         TakePages;
    if 0 < size < Limit(zp) {
      ChunkServed(s, zp, all, size);
    } else if size > 0 {
      LargeServed(s, zp, size);
    }
  }

  /**
   The documented alignment, for every power of two and from the state before the call: the block is aligned if and
   only if the request is at most a page, or the page that will serve it, the first of its zone or of its run, has a
   number that is a multiple of the size in pages.
   */
  lemma {:induction false} PowerOfTwoAligned(s: State, zp: ZonePages, all: set<Pages.Page>, size: Request)
    requires Inv(s, zp, all) && PowerOf2(size) && Malloc(s, zp, size).1.Some?
    ensures size < Limit(zp) ==> 0 <= ZoneIndex(size).0
    ensures size >= Limit(zp) ==> LargePages(size) > 0
    ensures var page := if size < Limit(zp) then ServingPage(s, zp, ZoneIndex(size).0)
                        else Pages.AllocRuns(s.pool.free, LargePages(size)).1;
            && page.Some?
            && (size > PageSize ==> size / PageSize > 0)
            && (Malloc(s, zp, size).1.value % size == 0 <==>
                  size <= PageSize || page.value % (size / PageSize) == 0)
  {
    hide Inv, ZoneIndex, Chunk, Malloc, PowerOf2, LargePages, Pages.AllocRuns, ServingPage, InZone;
    LimitBounds(s, zp, size);
    var r := Malloc(s, zp, size).1;
    if size < Limit(zp) {
      ChunkServed(s, zp, all, size);
      ClassFits(size, zp);
      var z, s' := ServingPage(s, zp, ZoneIndex(size).0).value, Malloc(s, zp, size).0;
      IssuedAligned(size, z, s'.zones[z], r.value);
      PageOrTwo(size);
    } else {
      LargeServed(s, zp, size);
      RunAligned(size, Pages.AllocRuns(s.pool.free, LargePages(size)).1.value);
    }
  }

  lemma LimitBounds(s: State, zp: ZonePages, size: Request)
    requires Malloc(s, zp, size).1.Some?
    ensures size > 0 && PageSize < Limit(zp) <= 16384
  {
  }

  lemma IssuedAligned(size: Request, z: Pages.Page, zone: Zone, a: Addr)
    requires 1 <= size < 16384 && PowerOf2(size) && zone.chunk == ZoneIndex(size).1 && zone.chunk > 0
             && InZone(z, zone, a)
    ensures a % size == 0 <==> size <= PageSize || z % 2 == 0
  {
    hide Chunk, ZoneIndex, PowerOf2;
    var k: nat :| Issued(z, zone, a, k);
    ChunkAligned(size, z, k);
  }

  lemma PageOrTwo(size: Request)
    requires 1 <= size < 16384 && PowerOf2(size)
    ensures size > PageSize ==> size / PageSize == 2
  {
    Powers(size);
  }

  /** A heap of eight pages, the first taken for the page index: two pages are asked for, and start at the odd page. */
  lemma OddPages()
    ensures var s := State(Pages.Pool([Pages.Run(1, 7)], map[]), map[], map[], map[], []);
            Inv(s, 8, Pages.Span(1, 7)) && Malloc(s, 8, 8192).1 == Some(4096) && 4096 % 8192 != 0
  {
    InitInv(8, 0, 8, 1);
    assert LargePages(8192) == 2;
  }
}
