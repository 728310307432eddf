/**
 What the calls of slab.c answer and change, beyond keeping the invariant: how many chunks a zone has and which one it
 gives, when a zone is retired and its pages go back, and that all other blocks stay as they are.
 */
module SlabCalls {
  import opened Common
  import opened Waiting
  import opened Pages
  import opened SizeClass
  import opened Slab
  import opened SlabHeap
  import opened SlabAlign

  /** A quarter of a zone, at most 16 KB. */
  lemma LimitIs(zp: ZonePages)
    ensures Limit(zp) == Min(zp * PageSize / 4, 16384)
  {
  }

  /** The pages of a large block: the fewest that hold it, except that a size in the last page of the range wraps. */
  lemma LargeFits(size: Request)
    ensures var n := LargePages(size);
            if size <= 0x1_0000_0000 - PageSize then size <= n * PageSize < size + PageSize else n == 0
  {
  }

  /** Chunks begin at the first multiple behind the header, of their own size if a power of two, else of eight. */
  lemma OffsetLeast(chunk: nat)
    requires chunk >= 8
    ensures var unit := if PowerOf2(chunk) then chunk else 8;
            Offset(chunk) % unit == 0 && HeaderSize <= Offset(chunk) < HeaderSize + unit
  {
    hide RoundUp, PowerOf2;
    var unit := if PowerOf2(chunk) then chunk else 8;
    Units(HeaderSize, unit);
    Division(Offset(chunk), Offset(chunk) / unit, 0, unit);
  }

  /** A zone has as many chunks as fit: one more would not. */
  lemma ZoneFull(zp: ZonePages, chunk: nat)
    requires 8 <= chunk <= Limit(zp)
    ensures var n := Capacity(zp, chunk);
            Offset(chunk) + n * chunk <= zp * PageSize < Offset(chunk) + (n + 1) * chunk
  {
    hide Offset;
    var room := zp * PageSize - Offset(chunk);
    var d, r := room / chunk, room % chunk;
    assert room == d * chunk + r;
    assert (d + 1) * chunk == d * chunk + chunk;
  }

  // ---- Which chunk a zone gives ----

  /** `a` is the first chunk behind all that the zone ever gave. */
  ghost predicate NextOf(z: Page, zone: Zone, a: Addr)
    requires zone.chunk > 0
  {
    && (forall b: Addr :: InZone(z, zone, b) ==> b + zone.chunk <= a)
    && (exists b: Addr :: InZone(z, zone, b) && b + zone.chunk == a)
  }

  /** A zone gives chunks that were never used as long as there are any, in the order of their addresses. */
  lemma FreshFirst(zp: ZonePages, z: Page, zone: Zone)
    requires ZoneOk(zp, z, zone) && zone.uindex + 1 != zone.nmax
    ensures NextOf(z, zone, Pop(z, zone).1)
  {
    hide Chunk, Capacity, Offset, Limit, ChunkOf;
    var a := Pop(z, zone).1;
    forall b: Addr | InZone(z, zone, b) ensures b + zone.chunk <= a {
      var k: nat :| Issued(z, zone, b, k);
      ChunksDiffer(z, zone.chunk, k, zone.uindex + 1);
    }
    var b := Chunk(z, zone.chunk, zone.uindex);
    assert Issued(z, zone, b, zone.uindex);
    NextTo(z, zone.chunk, zone.uindex);
    assert InZone(z, zone, b) && b + zone.chunk == a;
  }

  lemma NextTo(z: Page, chunk: nat, k: nat)
    requires chunk > 0
    ensures Chunk(z, chunk, k) + chunk == Chunk(z, chunk, k + 1)
  {
    assert (k + 1) * chunk == k * chunk + chunk;
  }

  /** Once all were used the chunk given back last is given first, which leaves the zone as it was. */
  lemma LastFreedFirst(zp: ZonePages, z: Page, zone: Zone, a: Addr)
    requires ZoneOk(zp, z, zone) && zone.uindex + 1 == zone.nmax
    ensures Pop(z, Push(zone, a)) == (zone, a)
  {
    assert ([a] + zone.freed)[1..] == zone.freed;
  }

  // ---- Retiring a zone ----

  /** A zone none of whose chunks is in use has all of them free. */
  lemma NoneLive(zp: ZonePages, z: Page, zone: Zone)
    requires ZoneOk(zp, z, zone)
    ensures zone.nfree == zone.nmax <==> forall a :: !LiveIn(z, zone, a)
  {
    hide Capacity, Chunk;
    forall a | zone.nfree == zone.nmax ensures !LiveIn(z, zone, a) {
      AllFree(zp, z, zone, a);
    }
    if forall a :: !LiveIn(z, zone, a) {
      var s, t := Members(zone.freed), IssuedSet(z, zone.chunk, zone.uindex);
      DistinctCount(zone.freed);
      IssuedCount(z, zone.chunk, zone.uindex);
      forall a | a in t ensures a in s {
        OutOfIssued(z, zone, zone.uindex, a);
        assert !LiveIn(z, zone, a);
      }
      SubsetSize(t, s);
      FreeAtMost(zp, z, zone);
    }
  }

  lemma FreeAtMost(zp: ZonePages, z: Page, zone: Zone)
    requires ZoneOk(zp, z, zone)
    ensures |zone.freed| <= zone.uindex + 1
  {
    hide Capacity, Chunk;
    var s, t := Members(zone.freed), IssuedSet(z, zone.chunk, zone.uindex);
    DistinctCount(zone.freed);
    IssuedCount(z, zone.chunk, zone.uindex);
    forall a | a in s ensures a in t {
      var k: nat :| Issued(z, zone, a, k);
      InIssued(z, zone.chunk, zone.uindex, k);
    }
    SubsetSize(s, t);
  }

  lemma {:induction false} OutOfIssued(z: Page, zone: Zone, u: nat, a: Addr)
    requires zone.chunk > 0 && u <= zone.uindex && a in IssuedSet(z, zone.chunk, u)
    ensures InZone(z, zone, a)
    decreases u
  {
    hide Chunk;
    if a == Chunk(z, zone.chunk, u) {
      assert Issued(z, zone, a, u);
    } else {
      OutOfIssued(z, zone, u - 1, a);
    }
  }

  /** Another zone of the class has free chunks. */
  ghost predicate Relieved(s: State, z: Page)
    requires z in s.zones
  {
    exists t :: t in s.zones && t != z && s.zones[t].zi == s.zones[z].zi && s.zones[t].nfree > 0
  }

  /** The list of a class holds more than one zone exactly if another zone besides `z` has free chunks. */
  lemma OthersListed(zones: map<Page, Zone>, lists: map<nat, seq<Page>>, z: Page)
    requires ArrayOk(zones, lists) && z in zones && zones[z].nfree > 0
    ensures |At(lists, zones[z].zi)| > 1
            <==> exists t :: t in zones && t != z && zones[t].zi == zones[z].zi && zones[t].nfree > 0
  {
    var i := zones[z].zi;
    var q := At(lists, i);
    assert NoDup(q) && Lists(zones, lists, i);
    assert z in q;
    if |q| > 1 {
      var t := if q[0] == z then q[1] else q[0];
      assert t in q && t != z;
    }
    if t :| t in zones && t != z && zones[t].zi == i && zones[t].nfree > 0 {
      assert t in q;
    }
  }

  // ---- What rt_free changes ----

  /** The chunk at `a` is the last in use of its zone. */
  ghost predicate LastLive(z: Page, zone: Zone, a: Addr) {
    forall b: Addr :: LiveIn(z, zone, b) ==> b == a
  }

  /** The lists after a chunk of `z` was freed: a full zone comes to the front of its class, a retired one leaves. */
  ghost predicate Relisted(s: State, s': State, z: Page, retired: bool)
    requires z in s.zones
  {
    var zi := s.zones[z].zi;
    && (At(s'.lists, zi) == if retired then Remove(At(s.lists, zi), z)
                            else if s.zones[z].nfree == 0 then [z] + At(s.lists, zi) else At(s.lists, zi))
    && forall i: nat :: i != zi ==> At(s'.lists, i) == At(s.lists, i)
  }

  /** The other zones are as they were. */
  ghost predicate Unmoved(s: State, s': State, z: Page) {
    && (forall t :: t != z ==> (t in s'.zones <==> t in s.zones))
    && (forall t :: t != z && t in s.zones && t in s'.zones ==> s'.zones[t] == s.zones[t])
  }

  lemma PushNone(zp: ZonePages, z: Page, zone: Zone, a: Addr)
    requires ZoneOk(zp, z, zone) && LiveIn(z, zone, a)
    ensures Push(zone, a).nfree == zone.nmax <==> LastLive(z, zone, a)
    ensures zone.nfree == 0 ==> Push(zone, a).nfree != zone.nmax
  {
    hide Capacity, Chunk, LiveIn, Push, Limit, ChunkOf;
    PushKeeps(zp, z, zone, a);
    PushedFields(zone, a);
    NoneLive(zp, z, Push(zone, a));
    Roomy(zp, z, zone);
  }

  lemma Roomy(zp: ZonePages, z: Page, zone: Zone)
    requires ZoneOk(zp, z, zone)
    ensures zone.nmax >= 3
  {
    hide Capacity, Chunk, Limit, ChunkOf, Offset;
    ZoneFits(zp, zone.chunk, 0);
  }

  /** The state after the chunk was put on the free chunk list, and its zone back into the list of its class. */
  function Pushed(s: State, z: Page, a: Addr): State
    requires z in s.zones
  {
    var zone := s.zones[z];
    s.(zones := s.zones[z := Push(zone, a)],
       lists := if zone.nfree == 0 then s.lists[zone.zi := [z] + At(s.lists, zone.zi)] else s.lists)
  }

  lemma PushedAnswers(s: State, zp: ZonePages, all: set<Page>, z: Page, a: Addr)
    requires SlabHeap.Inv(s, zp, all) && z in s.zones && LiveIn(z, s.zones[z], a)
    ensures var s1 := Pushed(s, z, a);
            && SlabHeap.Inv(s1, zp, all) && Unmoved(s, s1, z) && Relisted(s, s1, z, false)
            && s1.zones[z].zi == s.zones[z].zi && s1.zones[z].nfree == Push(s.zones[z], a).nfree
            && (|At(s1.lists, s.zones[z].zi)| > 1 <==> Relieved(s, z))
  {
    hide Core, ZoneOk, LiveIn, Push;
    PushState(s, zp, all, z, a);
    PushedFields(s.zones[z], a);
    var s1 := Pushed(s, z, a);
    Positive(s, zp, all, z);
    Listed(s1, zp, all, z);
    assert Relieved(s1, z) <==> Relieved(s, z) by { SameRelief(s, s1, z); }
  }

  lemma Positive(s: State, zp: ZonePages, all: set<Page>, z: Page)
    requires SlabHeap.Inv(s, zp, all) && z in s.zones
    ensures s.zones[z].nfree >= 0 && ZoneOk(zp, z, s.zones[z])
  {
    hide ZoneOk, ArrayOk, Indexed, Owners, Pages.Inv;
    ZoneAt(s, zp, z);
    NfreeNonNegative(zp, z, s.zones[z]);
  }

  lemma SameRelief(s: State, s1: State, z: Page)
    requires z in s.zones && z in s1.zones && s1.zones[z].zi == s.zones[z].zi && Unmoved(s, s1, z)
    ensures Relieved(s1, z) <==> Relieved(s, z)
  {
    if Relieved(s, z) {
      var t :| t in s.zones && t != z && s.zones[t].zi == s.zones[z].zi && s.zones[t].nfree > 0;
      assert t in s1.zones && s1.zones[t] == s.zones[t];
    }
    if Relieved(s1, z) {
      var t :| t in s1.zones && t != z && s1.zones[t].zi == s1.zones[z].zi && s1.zones[t].nfree > 0;
      assert t in s.zones && s1.zones[t] == s.zones[t];
    }
  }

  lemma Listed(s: State, zp: ZonePages, all: set<Page>, z: Page)
    requires SlabHeap.Inv(s, zp, all) && z in s.zones && s.zones[z].nfree > 0
    ensures |At(s.lists, s.zones[z].zi)| > 1 <==> Relieved(s, z)
  {
    hide ArrayOk, ZonesOk, Indexed, Owners, Pages.Inv, At;
    OthersListed(s.zones, s.lists, z);
  }

  lemma RetiredZone(s: State, zp: ZonePages, z: Page)
    requires z in s.zones
    ensures var s' := Retire(s, zp, z); var zi := s.zones[z].zi;
            && z !in s'.zones && Unmoved(s, s', z)
            && forall i: nat :: At(s'.lists, i) == if i == zi then Remove(At(s.lists, zi), z) else At(s.lists, i)
  {
    hide Clear, Step, Remove;
  }

  lemma RetiredPages(s: State, zp: ZonePages, z: Page)
    requires z in s.zones
    ensures var s' := Retire(s, zp, z);
            && s'.spare == (if |s.spare| < 2 then [z] + s.spare else s.spare)
            && if |s.spare| >= 2 then s'.pool == Step(s.pool, FreeCall(z, zp))
               else s'.pool == s.pool && s'.usage == s.usage
  {
    hide Clear, Step, Remove, At;
  }

  /** What retiring changes: the zone becomes spare, or its pages are free again. */
  lemma RetireAnswers(s: State, zp: ZonePages, all: set<Page>, z: Page)
    requires SlabHeap.Inv(s, zp, all) && z in s.zones
    ensures var s' := Retire(s, zp, z); var zi := s.zones[z].zi;
            && z !in s'.zones && Unmoved(s, s', z)
            && (forall i: nat :: At(s'.lists, i) == if i == zi then Remove(At(s.lists, zi), z) else At(s.lists, i))
            && s'.spare == (if |s.spare| < 2 then [z] + s.spare else s.spare)
            && if |s.spare| >= 2 then PagesOf(s'.pool.free) == PagesOf(s.pool.free) + Span(z, zp)
               else s'.pool == s.pool && s'.usage == s.usage
  {
    hide SlabHeap.Inv, Retire, PagesOf, Span, Step, Remove, At, Unmoved;
    RetiredZone(s, zp, z);
    RetiredPages(s, zp, z);
    GivenBack(s, zp, all, z);
  }

  lemma GivenBack(s: State, zp: ZonePages, all: set<Page>, z: Page)
    requires SlabHeap.Inv(s, zp, all) && z in s.zones
    ensures PagesOf(Step(s.pool, FreeCall(z, zp)).free) == PagesOf(s.pool.free) + Span(z, zp)
  {
    hide ZonesOk, ArrayOk, Indexed, Owners, Span, PagesOf, Canonical, FreeRuns, OwnedPages;
    assert z in Held(s);
    OwnedOk(s, zp, all, Held(s), z);
    OwnedRemove(s.pool.owned, z);
    FreePages(s.pool.free, z, zp);
  }

  /**
   A freed chunk: its zone is retired exactly if no other chunk of it is in use and another zone of its class has free
   chunks. It is then kept as spare, unless two are kept already: then its pages go back to the page allocator.
   */
  lemma FreeAnswers(s: State, zp: ZonePages, all: set<Page>, z: Page, a: Addr)
    requires SlabHeap.Inv(s, zp, all) && z in s.zones && LiveIn(z, s.zones[z], a)
    ensures var s' := Free(s, zp, a); var retired := LastLive(z, s.zones[z], a) && Relieved(s, z);
            && (z in s'.zones <==> !retired)
            && Unmoved(s, s', z) && Relisted(s, s', z, retired)
            && s'.spare == (if retired && |s.spare| < 2 then [z] + s.spare else s.spare)
            && if retired && |s.spare| >= 2 then PagesOf(s'.pool.free) == PagesOf(s.pool.free) + Span(z, zp)
               else s'.pool == s.pool && s'.usage == s.usage
  {
    hide Core, ZoneOk, LiveIn, Push, LastLive, At, HeaderOf, PagesOf, Span, Retire, Relieved, SlabHeap.Inv;
    LiveInZone(zp, z, s.zones[z], a);
    HeaderFound(s, zp, all, z, a, 0);
    Positive(s, zp, all, z);
    PushNone(zp, z, s.zones[z], a);
    PushedFields(s.zones[z], a);
    PushedAnswers(s, zp, all, z, a);
    var s1 := Pushed(s, z, a);
    RetireAnswers(s1, zp, all, z);
    var retired := LastLive(z, s.zones[z], a) && Relieved(s, z);
    assert Free(s, zp, a) == if retired then Retire(s1, zp, z) else s1;
  }

  /** A freed large block: its pages are free again, and no zone and no other block changes. */
  lemma FreeLargeAnswers(s: State, zp: ZonePages, all: set<Page>, p: Page)
    requires SlabHeap.Inv(s, zp, all) && LargeStart(s.usage, p)
    ensures var s' := Free(s, zp, p * PageSize); var n := Use(s.usage, p).count;
            && s'.zones == s.zones && s'.lists == s.lists && s'.spare == s.spare
            && PagesOf(s'.pool.free) == PagesOf(s.pool.free) + Span(p, n)
            && !LargeStart(s'.usage, p) && forall q: Page :: q != p ==> Use(s'.usage, q) == Use(s.usage, q)
  {
    hide Core, Span, PagesOf, FreeRuns;
    assert p * PageSize / PageSize == p;
    LargeGivenBack(s, zp, all, p);
  }

  lemma LargeGivenBack(s: State, zp: ZonePages, all: set<Page>, p: Page)
    requires SlabHeap.Inv(s, zp, all) && LargeStart(s.usage, p)
    ensures var n := Use(s.usage, p).count;
            PagesOf(Step(s.pool, FreeCall(p, n)).free) == PagesOf(s.pool.free) + Span(p, n)
  {
    hide ZonesOk, ArrayOk, Indexed, Span, PagesOf, Canonical, FreeRuns, OwnedPages;
    OwnedRemove(s.pool.owned, p);
    FreePages(s.pool.free, p, Use(s.usage, p).count);
  }

  // ---- What rt_malloc changes ----

  /** The chunk that zone `z` gives: the next of its own, or the first if it is only being opened. */
  ghost predicate GivenBy(s: State, z: Page, i: nat, chunk: nat, a: Addr)
    requires chunk > 0
  {
    if At(s.lists, i) == [] then a == Chunk(z, chunk, 0)
    else
      && z in s.zones && s.zones[z].chunk > 0
      && (s.zones[z].uindex + 1 == s.zones[z].nmax ==> s.zones[z].freed != [])
      && a == Pop(z, s.zones[z]).1
  }

  /**
   A small request: the zone that serves it is the only one that changes; a spare zone leaves the spare ones, a new
   zone takes its pages and gives its first chunk, and otherwise neither pages nor spare zones are touched.
   */
  lemma MallocAnswers(s: State, zp: ZonePages, all: set<Page>, size: Request)
    requires SlabHeap.Inv(s, zp, all) && 1 <= size < Limit(zp)
    ensures 0 <= ZoneIndex(size).0 && ZoneIndex(size).1 > 0
    ensures var (i, chunk) := ZoneIndex(size); var (s', r) := Malloc(s, zp, size);
            var page := ServingPage(s, zp, i); var full := At(s.lists, i) == [];
            page.Some? ==>
              && r.Some? && GivenBy(s, page.value, i, chunk, r.value) && Unmoved(s, s', page.value)
              && s'.spare == (if full && s.spare != [] then s.spare[1..] else s.spare)
              && if full && s.spare == [] then PagesOf(s'.pool.free) == PagesOf(s.pool.free) - Span(page.value, zp)
                 else s'.pool == s.pool && s'.usage == s.usage
  {
    hide ZoneIndex, ChunkOf, Chunk, SlabHeap.Inv, Pages.AllocRuns, Span, PagesOf, SetSmall, InZone, OpenZone,
         MallocChunk, Unmoved;
    SmallestClass(size);
    ClassFits(size, zp);
    ChunkServed(s, zp, all, size);
    var (zi, chunk) := ZoneIndex(size);
    var i: nat := zi;
    if At(s.lists, i) != [] {
      HeadReady(s, zp, all, i);
      ChunkMoves(s, i);
    } else if s.spare != [] {
      OpenMoves(s, s.(spare := s.spare[1..]), zp, s.spare[0], i, chunk);
    } else {
      PagesTaken(s, zp, all);
      var (pool, p) := TakePages(s.pool, zp);
      if p.Some? {
        OpenMoves(s, s.(pool := pool, usage := SetSmall(s.usage, p.value, zp)), zp, p.value, i, chunk);
      }
    }
  }

  lemma ChunkMoves(s: State, i: nat)
    requires At(s.lists, i) != []
    requires var z := At(s.lists, i)[0];
             && z in s.zones && s.zones[z].chunk > 0
             && (s.zones[z].uindex + 1 == s.zones[z].nmax ==> s.zones[z].freed != [])
    ensures var z := At(s.lists, i)[0]; var (s', r) := MallocChunk(s, i);
            && r == Some(Pop(z, s.zones[z]).1) && Unmoved(s, s', z)
            && s'.spare == s.spare && s'.pool == s.pool && s'.usage == s.usage
  {
    hide Pop;
  }

  lemma OpenMoves(s: State, s1: State, zp: ZonePages, z: Page, i: nat, chunk: nat)
    requires s1.zones == s.zones && chunk > 0
    ensures var (s', r) := OpenZone(s1, zp, z, i, chunk);
            && r == Some(Chunk(z, chunk, 0)) && Unmoved(s, s', z)
            && s'.spare == s1.spare && s'.pool == s1.pool && s'.usage == s1.usage
  {
    hide Chunk, Capacity;
  }

  lemma HeadReady(s: State, zp: ZonePages, all: set<Page>, i: nat)
    requires SlabHeap.Inv(s, zp, all) && At(s.lists, i) != []
    ensures var z := At(s.lists, i)[0];
            && z in s.zones && s.zones[z].chunk > 0
            && (s.zones[z].uindex + 1 == s.zones[z].nmax ==> s.zones[z].freed != [])
  {
    hide ZoneOk, Indexed, Owners, ArrayOk, Pages.Inv;
    ListHead(s, i);
    ZoneAt(s, zp, At(s.lists, i)[0]);
    PopKeeps(zp, At(s.lists, i)[0], s.zones[At(s.lists, i)[0]]);
  }

  lemma PagesTaken(s: State, zp: ZonePages, all: set<Page>)
    requires SlabHeap.Inv(s, zp, all)
    ensures var (free, p) := AllocRuns(s.pool.free, zp);
            p.Some? ==> PagesOf(free) == PagesOf(s.pool.free) - Span(p.value, zp)
  {
    hide ZonesOk, ArrayOk, Indexed, Owners, Span, PagesOf, Canonical, AllocRuns, OwnedPages;
    AllocPages(s.pool.free, zp);
  }

  /** A large request takes its pages, marks the first, and changes no zone and no other block, or nothing at all. */
  lemma LargeAnswers(s: State, zp: ZonePages, all: set<Page>, size: Request)
    requires SlabHeap.Inv(s, zp, all) && size >= Limit(zp)
    ensures var n := LargePages(size); var (s', r) := Malloc(s, zp, size);
            && s'.zones == s.zones && s'.lists == s.lists && s'.spare == s.spare
            && (r.None? ==> s' == s)
            && (r.Some? ==> var p := r.value / PageSize;
                            && r.value == p * PageSize && Use(s'.usage, p) == Large(n)
                            && (forall q: Page :: q != p ==> Use(s'.usage, q) == Use(s.usage, q))
                            && PagesOf(s'.pool.free) == PagesOf(s.pool.free) - Span(p, n))
  {
    hide Core, Span, PagesOf, AllocRuns, LargePages, MallocLarge;
    MallocLargeKeeps(s, zp, all, LargePages(size));
    LargeTaken(s, zp, all, LargePages(size));
  }

  lemma LargeTaken(s: State, zp: ZonePages, all: set<Page>, n: nat)
    requires SlabHeap.Inv(s, zp, all)
    ensures var (s', r) := MallocLarge(s, n);
            && s'.lists == s.lists && s'.spare == s.spare
            && (r.Some? ==> var p := r.value / PageSize;
                            && r.value == p * PageSize
                            && (forall q: Page :: q != p ==> Use(s'.usage, q) == Use(s.usage, q))
                            && PagesOf(s'.pool.free) == PagesOf(s.pool.free) - Span(p, n))
  {
    hide ZonesOk, ArrayOk, Indexed, Owners, Span, PagesOf, Canonical, AllocRuns, OwnedPages;
    if n > 0 { AllocPages(s.pool.free, n); }
    var p := TakePages(s.pool, n).1;
    if p.Some? { assert p.value * PageSize / PageSize == p.value; }
  }
}
