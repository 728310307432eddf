/**
 `rt_malloc` and `rt_free` of slab.c on values: large requests go to pages, the others to zones; the page index
 says of every page what it belongs to. The invariant ties the three together: zones and spare zones own their
 pages, the index marks exactly those, and the list of each class holds exactly its zones with free chunks.
 */
module SlabHeap {
  import opened Common
  import opened Waiting
  import opened Pages
  import opened SizeClass
  import opened Slab

  /** An entry of `memusage`; a large block that was freed keeps its type with size zero. */
  datatype Usage = Unused | Small(offset: int) | Large(count: nat)

  datatype State = State(pool: Pool, usage: map<Page, Usage>, zones: map<Page, Zone>,
                         lists: map<nat, seq<Page>>, spare: seq<Page>)

  function Use(usage: map<Page, Usage>, p: Page): Usage {
    if p in usage then usage[p] else Unused
  }

  /** `zone_array[i]`, head first. */
  function At(lists: map<nat, seq<Page>>, i: nat): seq<Page> {
    if i in lists then lists[i] else []
  }

  // ---- The invariant ----

  ghost predicate ZonesOk(zp: ZonePages, zones: map<Page, Zone>) {
    forall z :: z in zones ==> ZoneOk(zp, z, zones[z])
  }

  /** The list of each class holds exactly its zones with free chunks. */
  ghost predicate ArrayOk(zones: map<Page, Zone>, lists: map<nat, seq<Page>>) {
    forall i: nat :: NoDup(At(lists, i)) && Lists(zones, lists, i)
  }

  ghost predicate Lists(zones: map<Page, Zone>, lists: map<nat, seq<Page>>, i: nat) {
    forall z :: z in At(lists, i) <==> z in zones && zones[z].zi == i && zones[z].nfree > 0
  }

  /** The zones in use and the spare ones. */
  function Held(s: State): set<Page> {
    s.zones.Keys + Members(s.spare)
  }

  /** Every page of a zone is marked with its distance from the zone's first page, and only those are. */
  ghost predicate Indexed(zp: ZonePages, usage: map<Page, Usage>, held: set<Page>) {
    && (forall z, p :: z in held && p in Span(z, zp) ==> Use(usage, p) == Small(p - z))
    && (forall p :: Use(usage, p).Small? ==> Back(usage, held, zp, p))
  }

  predicate Back(usage: map<Page, Usage>, held: set<Page>, zp: ZonePages, p: Page)
    requires Use(usage, p).Small?
  {
    var j := Use(usage, p).offset;
    0 <= j < zp && j <= p && p - j in held
  }

  /** The allocated stretches of pages are the zones and the large blocks. */
  ghost predicate Owners(zp: ZonePages, usage: map<Page, Usage>, held: set<Page>, owned: map<Page, nat>) {
    && (forall z :: z in held ==> z in owned && owned[z] == zp)
    && (forall p :: p in owned ==> p in held || Use(usage, p) == Large(owned[p]))
    && (forall p :: LargeStart(usage, p) ==> p in owned && owned[p] == Use(usage, p).count && p !in held)
  }

  predicate LargeStart(usage: map<Page, Usage>, p: Page) {
    Use(usage, p).Large? && Use(usage, p).count > 0
  }

  /** The invariant when the zones at `held` are in use, spare, or about to be opened. */
  ghost predicate Core(s: State, zp: ZonePages, all: set<Page>, held: set<Page>) {
    && Pages.Inv(s.pool, all)
    && ZonesOk(zp, s.zones) && ArrayOk(s.zones, s.lists)
    && NoDup(s.spare) && (forall z :: z in s.spare ==> z !in s.zones)
    && Indexed(zp, s.usage, held)
    && Owners(zp, s.usage, held, s.pool.owned)
  }

  ghost predicate Inv(s: State, zp: ZonePages, all: set<Page>) {
    Core(s, zp, all, Held(s))
  }

  // ---- rt_malloc ----

  /** Pages asked for by a large request, rounded up in 32-bit arithmetic. */
  function LargePages(size: Request): nat {
    (size + (PageSize - 1)) % 0x1_0000_0000 / PageSize
  }

  /** `rt_page_alloc` on the pool. */
  function TakePages(pool: Pool, n: nat): (Pool, Option<Page>) {
    (Step(pool, AllocCall(n)), if n == 0 then None else AllocRuns(pool.free, n).1)
  }

  function SetSmall(usage: map<Page, Usage>, z: Page, zp: ZonePages): map<Page, Usage> {
    usage + map p | p in Span(z, zp) :: Small(p - z)
  }

  function Clear(usage: map<Page, Usage>, z: Page, zp: ZonePages): map<Page, Usage> {
    usage + map p | p in Span(z, zp) :: Unused
  }

  function MallocLarge(s: State, n: nat): (State, Option<Addr>) {
    var (pool, p) := TakePages(s.pool, n);
    match p
    case None => (s.(pool := pool), None)
    case Some(page) => (s.(pool := pool, usage := s.usage[page := Large(n)]), Some(page * PageSize))
  }

  /** The first zone of a class that has free chunks gives one, and leaves the list with its last. */
  function MallocChunk(s: State, i: nat): (State, Option<Addr>) {
    if At(s.lists, i) == [] || At(s.lists, i)[0] !in s.zones then (s, None)
    else
      var z := At(s.lists, i)[0];
      var zone := s.zones[z];
      if zone.chunk == 0 || (zone.uindex + 1 == zone.nmax && zone.freed == []) then (s, None)
      else
        var (zone', a) := Pop(z, zone);
        var lists := if zone'.nfree == 0 then s.lists[i := At(s.lists, i)[1..]] else s.lists;
        (s.(zones := s.zones[z := zone'], lists := lists), Some(a))
  }

  /** A new zone for class `i` at page `z`, giving its first chunk. */
  function OpenZone(s: State, zp: ZonePages, z: Page, i: nat, chunk: nat): (State, Option<Addr>)
    requires chunk > 0
  {
    var nmax := Capacity(zp, chunk);
    var zone := Zone(i, chunk, nmax, 0, nmax - 1, []);
    (s.(zones := s.zones[z := zone], lists := s.lists[i := [z] + At(s.lists, i)]), Some(Chunk(z, chunk, 0)))
  }

  function Malloc(s: State, zp: ZonePages, size: Request): (State, Option<Addr>) {
    if size == 0 then (s, None)
    else if size >= Limit(zp) then MallocLarge(s, LargePages(size))
    else
      var (zi, chunk) := ZoneIndex(size);
      var i: nat := if zi >= 0 then zi else 0;
      if At(s.lists, i) != [] then MallocChunk(s, i)
      else if chunk == 0 then (s, None)
      else if s.spare != [] then OpenZone(s.(spare := s.spare[1..]), zp, s.spare[0], i, chunk)
      else
        var (pool, p) := TakePages(s.pool, zp);
        match p
        case None => (s.(pool := pool), None)
        case Some(z) => OpenZone(s.(pool := pool, usage := SetSmall(s.usage, z, zp)), zp, z, i, chunk)
  }

  // ---- rt_free ----

  function FreeLarge(s: State, p: Page, n: nat): State {
    s.(pool := Step(s.pool, FreeCall(p, n)), usage := s.usage[p := Large(0)])
  }

  /** The zone leaves its list and becomes spare; one spare zone too many goes back to the pages. */
  function Retire(s: State, zp: ZonePages, z: Page): State
    requires z in s.zones
  {
    var i := s.zones[z].zi;
    var s1 := s.(zones := s.zones - {z}, lists := s.lists[i := Remove(At(s.lists, i), z)], spare := [z] + s.spare);
    if |s1.spare| > SpareLimit then
      s1.(spare := s.spare, usage := Clear(s.usage, z, zp), pool := Step(s.pool, FreeCall(z, zp)))
    else s1
  }

  function FreeChunk(s: State, zp: ZonePages, z: Page, a: Addr): State
    requires z in s.zones
  {
    var zone := s.zones[z];
    var zone' := Push(zone, a);
    var lists := if zone.nfree == 0 then s.lists[zone.zi := [z] + At(s.lists, zone.zi)] else s.lists;
    var s1 := s.(zones := s.zones[z := zone'], lists := lists);
    if zone'.nfree == zone'.nmax && |At(lists, zone.zi)| > 1 then Retire(s1, zp, z) else s1
  }

  /** The zone header a chunk address leads to: its page, back by the distance in the page index. */
  function HeaderOf(usage: map<Page, Usage>, a: Addr): int {
    var p := a / PageSize;
    if Use(usage, p).Small? then p - Use(usage, p).offset else p
  }

  function Free(s: State, zp: ZonePages, a: Addr): State {
    var p := a / PageSize;
    match Use(s.usage, p)
    case Large(n) => FreeLarge(s, p, n)
    case _ =>
      var z := HeaderOf(s.usage, a);
      if z in s.zones then FreeChunk(s, zp, z, a) else s
  }

  // ---- From a chunk back to its zone ----

  ghost predicate IsLive(zones: map<Page, Zone>, a: Addr) {
    exists z :: z in zones && LiveIn(z, zones[z], a)
  }

  lemma PageOfChunk(zp: ZonePages, z: Page, zone: Zone, a: Addr, d: nat)
    requires ZoneOk(zp, z, zone) && InZone(z, zone, a) && d < zone.chunk
    ensures (a + d) / PageSize in Span(z, zp)
  {
    hide Offset, Capacity, ChunkOf, Limit;
    var k: nat :| Issued(z, zone, a, k);
    ZoneFits(zp, zone.chunk, k);
    NextChunk(k, zone.chunk);
    var off := Offset(zone.chunk) + k * zone.chunk + d;
    PageOfOffset(z, off, zp);
    assert InRun((a + d) / PageSize, z, zp);
  }

  lemma NextChunk(k: nat, chunk: nat)
    ensures (k + 1) * chunk == k * chunk + chunk
  {
  }

  lemma PageOfOffset(z: Page, off: nat, n: nat)
    requires off < n * PageSize
    ensures z <= (z * PageSize + off) / PageSize < z + n
  {
  }

  /** Any byte of a live chunk leads back to the header of its zone. */
  lemma HeaderFound(s: State, zp: ZonePages, all: set<Page>, z: Page, a: Addr, d: nat)
    requires Inv(s, zp, all) && z in s.zones && LiveIn(z, s.zones[z], a) && d < s.zones[z].chunk
    ensures HeaderOf(s.usage, a + d) == z && Use(s.usage, (a + d) / PageSize).Small?
  {
    hide ZoneOk, LiveIn, Owners, ArrayOk, Span;
    LiveInZone(zp, z, s.zones[z], a);
    PageOfChunk(zp, z, s.zones[z], a, d);
    assert z in Held(s);
  }

  lemma LiveInZone(zp: ZonePages, z: Page, zone: Zone, a: Addr)
    requires LiveIn(z, zone, a)
    ensures zone.chunk > 0 && InZone(z, zone, a)
  {
  }

  /** No chunk is live in two zones. */
  lemma OneZone(s: State, zp: ZonePages, all: set<Page>, z: Page, t: Page, a: Addr)
    requires Inv(s, zp, all) && z in s.zones && t in s.zones && LiveIn(z, s.zones[z], a) && LiveIn(t, s.zones[t], a)
    ensures z == t
  {
    hide Inv, LiveIn;
    LiveInZone(zp, z, s.zones[z], a);
    LiveInZone(zp, t, s.zones[t], a);
    HeaderFound(s, zp, all, z, a, 0);
    HeaderFound(s, zp, all, t, a, 0);
  }

  // ---- Allocation from a zone ----

  lemma ListHead(s: State, i: nat)
    requires ArrayOk(s.zones, s.lists) && At(s.lists, i) != []
    ensures var z := At(s.lists, i)[0]; z in s.zones && s.zones[z].zi == i && s.zones[z].nfree > 0
  {
    assert Lists(s.zones, s.lists, i);
  }

  lemma ZoneAt(s: State, zp: ZonePages, z: Page)
    requires ZonesOk(zp, s.zones) && z in s.zones
    ensures ZoneOk(zp, z, s.zones[z]) && s.zones[z].chunk > 0
  {
  }

  lemma PoppedFields(z: Page, zone: Zone)
    requires zone.chunk > 0 && (zone.uindex + 1 == zone.nmax ==> zone.freed != [])
    ensures var zone' := Pop(z, zone).0;
            zone'.zi == zone.zi && zone'.nfree == zone.nfree - 1 && zone'.chunk == zone.chunk
  {
  }

  /** The lists after the head of list `i` gave a chunk. */
  lemma PopLists(zones: map<Page, Zone>, lists: map<nat, seq<Page>>, i: nat, zone': Zone)
    requires ArrayOk(zones, lists) && At(lists, i) != []
    requires var z := At(lists, i)[0];
             z in zones && zones[z].zi == i && zone'.zi == i && zone'.nfree == zones[z].nfree - 1 >= 0
    ensures var z := At(lists, i)[0];
            ArrayOk(zones[z := zone'], if zone'.nfree == 0 then lists[i := At(lists, i)[1..]] else lists)
  {
    var z, q := At(lists, i)[0], At(lists, i);
    var zones' := zones[z := zone'];
    var lists' := if zone'.nfree == 0 then lists[i := q[1..]] else lists;
    forall k: nat ensures NoDup(At(lists', k)) && Lists(zones', lists', k) {
      assert NoDup(At(lists, k)) && Lists(zones, lists, k);
      if k == i && zone'.nfree == 0 {
        assert q == [z] + q[1..] && z !in q[1..];
      }
    }
  }

  lemma MallocChunkKeeps(s: State, zp: ZonePages, all: set<Page>, i: nat)
    requires Inv(s, zp, all) && At(s.lists, i) != []
    ensures var (s', r) := MallocChunk(s, i);
            && Inv(s', zp, all) && r.Some? && GivesChunk(s, s', r.value, i)
  {
    hide ZoneOk, LiveIn, Pop, Indexed, Owners, ArrayOk, Pages.Inv;
    var z := At(s.lists, i)[0];
    ListHead(s, i);
    ZoneAt(s, zp, z);
    var zone := s.zones[z];
    PopKeeps(zp, z, zone);
    PoppedFields(z, zone);
    var (zone', a) := Pop(z, zone);
    PopLists(s.zones, s.lists, i, zone');
    var s' := MallocChunk(s, i).0;
    assert Held(s') == Held(s);
    ChunkGiven(s, s', zp, all, z, a);
  }

  /** Chunk `a` of class `i` is live now and was not before; nothing else changed its state. */
  ghost predicate GivesChunk(s: State, s': State, a: Addr, i: nat) {
    && !IsLive(s.zones, a)
    && (forall b :: IsLive(s'.zones, b) <==> IsLive(s.zones, b) || b == a)
    && (exists z :: z in s'.zones && s'.zones[z].zi == i && LiveIn(z, s'.zones[z], a))
  }

  lemma ChunkGiven(s: State, s': State, zp: ZonePages, all: set<Page>, z: Page, a: Addr)
    requires Inv(s, zp, all) && Inv(s', zp, all) && s'.usage == s.usage && z in s.zones && z in s'.zones
    requires s'.zones == s.zones[z := s'.zones[z]] && s'.zones[z].zi == s.zones[z].zi
    requires !LiveIn(z, s.zones[z], a) && forall b :: LiveIn(z, s'.zones[z], b) <==> LiveIn(z, s.zones[z], b) || b == a
    ensures GivesChunk(s, s', a, s.zones[z].zi)
  {
    hide LiveIn, Inv;
    assert LiveIn(z, s'.zones[z], a);
    forall t | t in s.zones ensures !LiveIn(t, s.zones[t], a) {
      if t != z && LiveIn(t, s.zones[t], a) {
        assert s'.zones[t] == s.zones[t];
        OneZone(s', zp, all, z, t, a);
      }
    }
    forall b ensures IsLive(s'.zones, b) <==> IsLive(s.zones, b) || b == a {
      if IsLive(s.zones, b) {
        var t :| t in s.zones && LiveIn(t, s.zones[t], b);
        assert t in s'.zones && LiveIn(t, s'.zones[t], b);
      }
      if IsLive(s'.zones, b) {
        var t :| t in s'.zones && LiveIn(t, s'.zones[t], b);
        assert t in s.zones && (LiveIn(t, s.zones[t], b) || b == a);
      }
    }
  }

  // ---- New zones and large blocks ----

  lemma OwnedSpan(owned: map<Page, nat>, t: Page, p: Page)
    requires t in owned && p in Span(t, owned[t])
    ensures p in OwnedPages(owned)
  {
  }

  /** A page of the free list is in no zone and starts no large block. */
  lemma FreeIsUnused(s: State, zp: ZonePages, all: set<Page>, held: set<Page>, p: Page)
    requires Core(s, zp, all, held) && p in PagesOf(s.pool.free)
    ensures !Use(s.usage, p).Small? && !LargeStart(s.usage, p) && p !in held && p !in s.pool.owned
    ensures forall z :: z in held ==> p !in Span(z, zp)
  {
    hide ZonesOk, ArrayOk, Canonical, PagesOf, OwnedPages, Span;
    var owned := s.pool.owned;
    forall z | z in held ensures p !in Span(z, zp) {
      if p in Span(z, zp) { OwnedSpan(owned, z, p); }
    }
    if p in owned { StartOwned(owned, p, 1); NotEmpty(owned, p); }
    if Use(s.usage, p).Small? {
      var z: Page := p - Use(s.usage, p).offset;
      assert Back(s.usage, held, zp, p);
      SmallSpan(z, zp, p);
      OwnedSpan(owned, z, p);
    }
  }

  lemma SmallSpan(z: Page, n: nat, p: Page)
    requires z <= p < z + n
    ensures p in Span(z, n)
  {
    assert InRun(p, z, n);
  }

  lemma SpanAt(z: Page, n: nat, p: Page)
    requires p in Span(z, n)
    ensures z <= p < z + n
  {
    assert InRun(p, z, n);
  }

  /** What `rt_page_alloc` hands out was free: in no zone, and no large block starts there. */
  lemma TakenPages(s: State, zp: ZonePages, all: set<Page>, n: nat)
    requires Inv(s, zp, all)
    ensures var (pool, p) := TakePages(s.pool, n);
            && Pages.Inv(pool, all)
            && (p.None? ==> pool == s.pool && (n == 0 || forall p: Page :: !(Span(p, n) <= PagesOf(s.pool.free))))
            && (p.Some? ==> n > 0 && pool.owned == s.pool.owned[p.value := n] && p.value in Span(p.value, n)
                            && forall q: Page :: q in Span(p.value, n) ==> Untouched(s, zp, q))
  {
    hide ZonesOk, ArrayOk, Canonical, AllocRuns, PagesOf, OwnedPages, Span, Indexed, Owners, Held;
    StepKeepsInv(s.pool, all, AllocCall(n));
    if n > 0 { AllocPages(s.pool.free, n); }
    var p := TakePages(s.pool, n).1;
    if p.Some? {
      SmallSpan(p.value, n, p.value);
      forall q: Page | q in Span(p.value, n) ensures Untouched(s, zp, q) {
        FreeIsUnused(s, zp, all, Held(s), q);
      }
    }
  }

  ghost predicate Untouched(s: State, zp: ZonePages, q: Page) {
    && !Use(s.usage, q).Small? && !LargeStart(s.usage, q) && q !in Held(s) && q !in s.pool.owned
    && forall t :: t in Held(s) ==> q !in Span(t, zp)
  }

  /** Pages just taken for a zone become its pages. */
  lemma NewPages(s: State, zp: ZonePages, all: set<Page>)
    requires Inv(s, zp, all) && TakePages(s.pool, zp).1.Some?
    ensures var (pool, p) := TakePages(s.pool, zp); var z := p.value;
            Core(s.(pool := pool, usage := SetSmall(s.usage, z, zp)), zp, all, Held(s) + {z}) && z !in Held(s)
  {
    hide ZonesOk, ArrayOk, Pages.Inv, TakePages, Span, Indexed, Owners, Held, SetSmall;
    TakenPages(s, zp, all, zp);
    var z := TakePages(s.pool, zp).1.value;
    var held, usage' := Held(s), SetSmall(s.usage, z, zp);
    SetSmallAt(s.usage, z, zp);
    forall t, q: Page | t in held && q in Span(z, zp) ensures q !in Span(t, zp) {
      assert Untouched(s, zp, q);
    }
    forall q: Page | q in Span(z, zp) ensures q !in s.pool.owned {
      assert Untouched(s, zp, q);
    }
    assert Untouched(s, zp, z);
    IndexedMore(s.usage, usage', held, zp, z);
    OwnersMore(s.usage, usage', held, zp, z, s.pool.owned);
  }

  lemma SetSmallAt(usage: map<Page, Usage>, z: Page, zp: ZonePages)
    ensures forall q: Page :: Use(SetSmall(usage, z, zp), q) == if q in Span(z, zp) then Small(q - z) else Use(usage, q)
  {
  }

  lemma IndexedMore(usage: map<Page, Usage>, usage': map<Page, Usage>, held: set<Page>, zp: ZonePages, z: Page)
    requires Indexed(zp, usage, held)
    requires forall q: Page :: Use(usage', q) == if q in Span(z, zp) then Small(q - z) else Use(usage, q)
    requires forall t, q :: t in held && q in Span(z, zp) ==> q !in Span(t, zp)
    ensures Indexed(zp, usage', held + {z})
  {
    hide Span;
    forall p | Use(usage', p).Small? ensures Back(usage', held + {z}, zp, p) {
      if p in Span(z, zp) { SpanAt(z, zp, p); } else { assert Back(usage, held, zp, p); }
    }
  }

  lemma OwnersMore(usage: map<Page, Usage>, usage': map<Page, Usage>, held: set<Page>, zp: ZonePages, z: Page,
                   owned: map<Page, nat>)
    requires Owners(zp, usage, held, owned) && z !in held
    requires forall q: Page :: Use(usage', q) == if q in Span(z, zp) then Small(q - z) else Use(usage, q)
    requires forall q :: q in Span(z, zp) ==> q !in owned
    ensures Owners(zp, usage', held + {z}, owned[z := zp])
  {
    hide Span;
    SmallSpan(z, zp, z);
    forall p | LargeStart(usage', p) ensures p != z && LargeStart(usage, p) && Use(usage', p) == Use(usage, p) {
    }
  }

  /** The page index and the free pages of a large block just taken. */
  lemma MallocLargeKeeps(s: State, zp: ZonePages, all: set<Page>, n: nat)
    requires Inv(s, zp, all)
    ensures var (s', r) := MallocLarge(s, n);
            && Inv(s', zp, all) && s'.zones == s.zones
            && (r.None? ==> s' == s && (n == 0 || forall p: Page :: !(Span(p, n) <= PagesOf(s.pool.free))))
            && (r.Some? ==> r.value % PageSize == 0 && LargeStart(s'.usage, r.value / PageSize)
                            && Use(s'.usage, r.value / PageSize) == Large(n)
                            && !LargeStart(s.usage, r.value / PageSize))
  {
    hide ZonesOk, ArrayOk, Pages.Inv, TakePages, Span, Indexed, Owners;
    TakenPages(s, zp, all, n);
    var p := TakePages(s.pool, n).1;
    if p.Some? {
      var z := p.value;
      assert Untouched(s, zp, z);
      IndexedOther(s.usage, s.usage[z := Large(n)], Held(s), zp, z);
      OwnersLarge(s.usage, Held(s), zp, z, n, s.pool.owned);
    }
  }

  lemma OwnersLarge(usage: map<Page, Usage>, held: set<Page>, zp: ZonePages, z: Page, n: nat, owned: map<Page, nat>)
    requires Owners(zp, usage, held, owned) && z !in held && z !in owned && n > 0
    ensures Owners(zp, usage[z := Large(n)], held, owned[z := n])
  {
    var usage' := usage[z := Large(n)];
    forall p | LargeStart(usage', p) ensures p == z || LargeStart(usage, p) {
    }
  }

  lemma IndexedOther(usage: map<Page, Usage>, usage': map<Page, Usage>, held: set<Page>, zp: ZonePages, z: Page)
    requires Indexed(zp, usage, held) && !Use(usage', z).Small?
    requires forall q :: q != z ==> Use(usage', q) == Use(usage, q)
    requires forall t :: t in held ==> z !in Span(t, zp)
    ensures Indexed(zp, usage', held)
  {
    hide Span;
    forall p | Use(usage', p).Small? ensures Back(usage', held, zp, p) {
      assert Back(usage, held, zp, p);
    }
  }

  lemma OpenLists(zones: map<Page, Zone>, lists: map<nat, seq<Page>>, z: Page, zone: Zone)
    requires ArrayOk(zones, lists) && z !in zones && zone.nfree > 0
    ensures ArrayOk(zones[z := zone], lists[zone.zi := [z] + At(lists, zone.zi)])
  {
    var i := zone.zi;
    var lists', zones' := lists[i := [z] + At(lists, i)], zones[z := zone];
    forall k: nat ensures NoDup(At(lists', k)) && Lists(zones', lists', k) {
      assert NoDup(At(lists, k)) && Lists(zones, lists, k);
    }
  }

  lemma FreshZone(zp: ZonePages, z: Page, i: nat)
    requires i < Classes && 8 <= ChunkOf(i) <= Limit(zp)
    ensures var chunk := ChunkOf(i); var nmax := Capacity(zp, chunk);
            var zone := Zone(i, chunk, nmax, 0, nmax - 1, []);
            && ZoneOk(zp, z, zone) && zone.nfree > 0
            && forall a :: LiveIn(z, zone, a) <==> a == Chunk(z, chunk, 0)
  {
    var chunk := ChunkOf(i);
    var nmax := Capacity(zp, chunk);
    var zone := Zone(i, chunk, nmax, 0, nmax - 1, []);
    Capacious(zp, chunk);
    hide Capacity, Chunk, ChunkOf;
    forall a ensures LiveIn(z, zone, a) <==> a == Chunk(z, chunk, 0) {
      if a == Chunk(z, chunk, 0) { assert Issued(z, zone, a, 0); }
    }
  }

  lemma Capacious(zp: ZonePages, chunk: nat)
    requires 8 <= chunk <= Limit(zp)
    ensures Capacity(zp, chunk) >= 3
  {
    hide Offset;
    OffsetBound(chunk);
    CapacityBound(zp * PageSize - Offset(chunk), chunk);
  }

  /** A zone about to be opened at `z` becomes one of the class, and gives its first chunk. */
  lemma OpenKeeps(s: State, zp: ZonePages, all: set<Page>, z: Page, i: nat)
    requires Core(s, zp, all, Held(s) + {z}) && z !in Held(s) && i < Classes && 8 <= ChunkOf(i) <= Limit(zp)
    ensures var (s', r) := OpenZone(s, zp, z, i, ChunkOf(i));
            Inv(s', zp, all) && r.Some? && GivesChunk(s, s', r.value, i)
  {
    hide ZoneOk, LiveIn, Indexed, Owners, ArrayOk, Pages.Inv, ChunkOf, Capacity, Chunk, Limit;
    FreshZone(zp, z, i);
    var (s', r) := OpenZone(s, zp, z, i, ChunkOf(i));
    OpenLists(s.zones, s.lists, z, s'.zones[z]);
    assert Held(s') == Held(s) + {z};
    ZoneGiven(s, s', zp, all, z, r.value);
  }

  lemma ZoneGiven(s: State, s': State, zp: ZonePages, all: set<Page>, z: Page, a: Addr)
    requires Inv(s', zp, all) && z !in s.zones && z in s'.zones && s'.zones == s.zones[z := s'.zones[z]]
    requires forall b :: LiveIn(z, s'.zones[z], b) <==> b == a
    ensures GivesChunk(s, s', a, s'.zones[z].zi)
  {
    hide LiveIn, Inv;
    assert LiveIn(z, s'.zones[z], a);
    forall t | t in s.zones ensures !LiveIn(t, s.zones[t], a) {
      if LiveIn(t, s.zones[t], a) {
        assert s'.zones[t] == s.zones[t];
        OneZone(s', zp, all, z, t, a);
      }
    }
    forall b ensures IsLive(s'.zones, b) <==> IsLive(s.zones, b) || b == a {
      if IsLive(s.zones, b) {
        var t :| t in s.zones && LiveIn(t, s.zones[t], b);
        assert t in s'.zones && LiveIn(t, s'.zones[t], b);
      }
    }
  }

  lemma SpareHead(s: State, zp: ZonePages, all: set<Page>)
    requires Inv(s, zp, all) && s.spare != []
    ensures var s1 := s.(spare := s.spare[1..]);
            Core(s1, zp, all, Held(s1) + {s.spare[0]}) && s.spare[0] !in Held(s1)
  {
    hide ZonesOk, Indexed, Owners, ArrayOk, Pages.Inv;
    var s1 := s.(spare := s.spare[1..]);
    assert s.spare == [s.spare[0]] + s1.spare;
    assert s.spare[0] !in s1.spare;
    assert Held(s1) + {s.spare[0]} == Held(s);
  }

  /** Why an allocation fails: nothing was asked for, or the pages it needs are not there. */
  ghost predicate NoRoom(s: State, zp: ZonePages, size: Request) {
    var n := if size >= Limit(zp) then LargePages(size) else zp;
    n == 0 || forall p: Page :: !(Span(p, n) <= PagesOf(s.pool.free))
  }

  /**
   `rt_malloc` below the limit hands out a chunk that was in use by nobody, of the smallest class that holds the
   request; a large request gets pages that were free; on failure nothing changes.
   */
  lemma MallocKeepsInv(s: State, zp: ZonePages, all: set<Page>, size: Request)
    requires Inv(s, zp, all)
    ensures var (s', r) := Malloc(s, zp, size);
            && Inv(s', zp, all)
            && (r.None? ==> s' == s && (size == 0 || NoRoom(s, zp, size)))
            && (r.Some? && size < Limit(zp) ==> GivesChunk(s, s', r.value, ZoneIndex(size).0))
            && (r.Some? && size >= Limit(zp) ==>
                  s'.zones == s.zones && r.value % PageSize == 0 && !LargeStart(s.usage, r.value / PageSize)
                  && Use(s'.usage, r.value / PageSize) == Large(LargePages(size)) && LargePages(size) > 0)
  {
    hide Core, MallocLarge, MallocChunk, OpenZone, TakePages, GivesChunk, ZoneIndex, ChunkOf, LargePages, Span,
         PagesOf, Held, At;
    if 0 < size < Limit(zp) {
      SmallestClass(size);
      ClassFits(size, zp);
      var (zi, chunk) := ZoneIndex(size);
      var i: nat := zi;
      if At(s.lists, i) != [] {
        MallocChunkKeeps(s, zp, all, i);
      } else if s.spare != [] {
        SpareHead(s, zp, all);
        OpenKeeps(s.(spare := s.spare[1..]), zp, all, s.spare[0], i);
        SameZones(s, s.(spare := s.spare[1..]), Malloc(s, zp, size).0, Malloc(s, zp, size).1, i);
      } else {
        TakenPages(s, zp, all, zp);
        var (pool, p) := TakePages(s.pool, zp);
        if p.Some? {
          NewPages(s, zp, all);
          var s1 := s.(pool := pool, usage := SetSmall(s.usage, p.value, zp));
          HeldSame(s, s1);
          OpenKeeps(s1, zp, all, p.value, i);
          SameZones(s, s1, Malloc(s, zp, size).0, Malloc(s, zp, size).1, i);
        }
      }
    } else if size > 0 {
      MallocLargeKeeps(s, zp, all, LargePages(size));
    }
  }

  lemma HeldSame(s: State, s1: State)
    requires s1.zones == s.zones && s1.spare == s.spare
    ensures Held(s1) == Held(s)
  {
  }

  lemma SameZones(s: State, s1: State, s': State, r: Option<Addr>, i: nat)
    requires s1.zones == s.zones && r.Some? && GivesChunk(s1, s', r.value, i)
    ensures GivesChunk(s, s', r.value, i)
  {
  }

  lemma ClassFits(size: Request, zp: ZonePages)
    requires 1 <= size < Limit(zp)
    ensures 8 <= ZoneIndex(size).1 <= Limit(zp)
  {
    hide ZoneIndex;
    Monotone(1, size);
    Monotone(size, Limit(zp) - 1);
    EdgeClasses();
  }

  lemma EdgeClasses()
    ensures ZoneIndex(1) == (0, 8) && ZoneIndex(8191).1 == 8192 && ZoneIndex(16383).1 == 16384
  {
  }

  // ---- What rt_free keeps ----

  lemma PushLists(zones: map<Page, Zone>, lists: map<nat, seq<Page>>, z: Page, zone': Zone)
    requires ArrayOk(zones, lists) && z in zones && zone'.zi == zones[z].zi && zone'.nfree == zones[z].nfree + 1
    requires zones[z].nfree >= 0
    ensures var i := zone'.zi;
            var lists' := if zones[z].nfree == 0 then lists[i := [z] + At(lists, i)] else lists;
            ArrayOk(zones[z := zone'], lists') && z in At(lists', i)
  {
    var i := zone'.zi;
    var lists' := if zones[z].nfree == 0 then lists[i := [z] + At(lists, i)] else lists;
    forall k: nat ensures NoDup(At(lists', k)) && Lists(zones[z := zone'], lists', k) {
      assert NoDup(At(lists, k)) && Lists(zones, lists, k);
    }
    assert Lists(zones[z := zone'], lists', i);
  }

  lemma NfreeNonNegative(zp: ZonePages, z: Page, zone: Zone)
    requires ZoneOk(zp, z, zone)
    ensures zone.nfree >= 0
  {
  }

  lemma PushedFields(zone: Zone, a: Addr)
    ensures var zone' := Push(zone, a); zone'.zi == zone.zi && zone'.nfree == zone.nfree + 1 && zone'.nmax == zone.nmax
  {
  }

  /** The chunk goes to the free chunk list of its zone, and the zone to the list of its class. */
  lemma PushState(s: State, zp: ZonePages, all: set<Page>, z: Page, a: Addr)
    requires Inv(s, zp, all) && z in s.zones && LiveIn(z, s.zones[z], a)
    ensures var zone := s.zones[z]; var zone' := Push(zone, a);
            var lists := if zone.nfree == 0 then s.lists[zone.zi := [z] + At(s.lists, zone.zi)] else s.lists;
            var s1 := s.(zones := s.zones[z := zone'], lists := lists);
            && Inv(s1, zp, all) && z in At(lists, zone'.zi)
            && forall b :: IsLive(s1.zones, b) <==> IsLive(s.zones, b) && b != a
  {
    hide ZoneOk, LiveIn, Push, Indexed, Owners, ArrayOk, Pages.Inv;
    ZoneAt(s, zp, z);
    var zone := s.zones[z];
    NfreeNonNegative(zp, z, zone);
    PushKeeps(zp, z, zone, a);
    PushedFields(zone, a);
    var zone' := Push(zone, a);
    PushLists(s.zones, s.lists, z, zone');
    var lists := if zone.nfree == 0 then s.lists[zone.zi := [z] + At(s.lists, zone.zi)] else s.lists;
    var s1 := s.(zones := s.zones[z := zone'], lists := lists);
    assert Held(s1) == Held(s);
    forall b ensures IsLive(s1.zones, b) <==> IsLive(s.zones, b) && b != a {
      ChunkBack(s, s1, zp, all, z, a, b);
    }
  }

  lemma ChunkBack(s: State, s1: State, zp: ZonePages, all: set<Page>, z: Page, a: Addr, b: Addr)
    requires Inv(s, zp, all) && z in s.zones && LiveIn(z, s.zones[z], a) && z in s1.zones
             && s1.zones == s.zones[z := s1.zones[z]]
    requires forall b :: LiveIn(z, s1.zones[z], b) <==> LiveIn(z, s.zones[z], b) && b != a
    ensures IsLive(s1.zones, b) <==> IsLive(s.zones, b) && b != a
  {
    hide Inv, LiveIn;
    if IsLive(s.zones, b) && b != a {
      var t :| t in s.zones && LiveIn(t, s.zones[t], b);
      assert t in s1.zones && LiveIn(t, s1.zones[t], b);
    }
    if IsLive(s1.zones, b) {
      var t :| t in s1.zones && LiveIn(t, s1.zones[t], b);
      assert t in s.zones && LiveIn(t, s.zones[t], b);
      if b == a && t != z { OneZone(s, zp, all, z, t, a); }
    }
  }

  lemma RetireLists(zones: map<Page, Zone>, lists: map<nat, seq<Page>>, z: Page)
    requires ArrayOk(zones, lists) && z in zones
    ensures var i := zones[z].zi; ArrayOk(zones - {z}, lists[i := Remove(At(lists, i), z)])
  {
    var i := zones[z].zi;
    var zones', lists' := zones - {z}, lists[i := Remove(At(lists, i), z)];
    assert NoDup(At(lists, i));
    RemoveMembers(At(lists, i), z);
    forall k: nat ensures NoDup(At(lists', k)) && Lists(zones', lists', k) {
      assert NoDup(At(lists, k)) && Lists(zones, lists, k);
    }
  }

  /** Pages given back by a zone without live chunks leave the page index. */
  lemma ReleasePages(s: State, zp: ZonePages, all: set<Page>, held: set<Page>, z: Page)
    requires Core(s, zp, all, held) && z in held
    ensures Core(s.(usage := Clear(s.usage, z, zp), pool := Step(s.pool, FreeCall(z, zp))), zp, all, held - {z})
  {
    hide ZonesOk, ArrayOk, Pages.Inv, Span, Clear, Indexed, Owners;
    OwnedOk(s, zp, all, held, z);
    StepKeepsInv(s.pool, all, FreeCall(z, zp));
    ClearAt(s.usage, z, zp);
    IndexedLess(s.usage, Clear(s.usage, z, zp), held, zp, z);
    OwnersLess(s.usage, Clear(s.usage, z, zp), held, zp, z, s.pool.owned);
  }

  /** A held zone owns its pages, and no other stretch shares them. */
  lemma OwnedOk(s: State, zp: ZonePages, all: set<Page>, held: set<Page>, z: Page)
    requires Core(s, zp, all, held) && z in held
    ensures z in s.pool.owned && s.pool.owned[z] == zp && Legal(s.pool, FreeCall(z, zp))
    ensures forall t :: t in held && t != z ==> Span(t, zp) !! Span(z, zp)
    ensures forall t :: t in s.pool.owned && t != z ==> t !in Span(z, zp)
  {
    hide ZonesOk, ArrayOk, Indexed, Span, OwnedPages, Canonical, PagesOf;
    forall t | t in s.pool.owned && t != z ensures t !in Span(z, zp) {
      StartOwned(s.pool.owned, t, s.pool.owned[t]);
    }
  }

  lemma ClearAt(usage: map<Page, Usage>, z: Page, zp: ZonePages)
    ensures forall q: Page :: Use(Clear(usage, z, zp), q) == if q in Span(z, zp) then Unused else Use(usage, q)
  {
  }

  lemma IndexedLess(usage: map<Page, Usage>, usage': map<Page, Usage>, held: set<Page>, zp: ZonePages, z: Page)
    requires Indexed(zp, usage, held) && z in held
    requires forall q: Page :: Use(usage', q) == if q in Span(z, zp) then Unused else Use(usage, q)
    requires forall t :: t in held && t != z ==> Span(t, zp) !! Span(z, zp)
    ensures Indexed(zp, usage', held - {z})
  {
    hide Span;
    forall p: Page | Use(usage', p).Small? ensures Back(usage', held - {z}, zp, p) {
      assert Back(usage, held, zp, p);
      if p - Use(usage, p).offset == z { SmallSpan(z, zp, p); }
    }
    forall t, p | t in held - {z} && p in Span(t, zp) ensures Use(usage', p) == Small(p - t) {
      assert p !in Span(z, zp);
    }
  }

  lemma OwnersLess(usage: map<Page, Usage>, usage': map<Page, Usage>, held: set<Page>, zp: ZonePages, z: Page,
                   owned: map<Page, nat>)
    requires Owners(zp, usage, held, owned) && z in held
    requires forall q: Page :: Use(usage', q) == if q in Span(z, zp) then Unused else Use(usage, q)
    requires forall t :: t in owned && t != z ==> t !in Span(z, zp)
    ensures Owners(zp, usage', held - {z}, owned - {z})
  {
    hide Span;
    SmallSpan(z, zp, z);
    forall p | LargeStart(usage', p) ensures LargeStart(usage, p) && p != z && Use(usage', p) == Use(usage, p) {
    }
  }

  /** A zone without live chunks retires: it becomes spare, or its pages go back. */
  lemma RetireKeeps(s: State, zp: ZonePages, all: set<Page>, z: Page)
    requires Inv(s, zp, all) && z in s.zones && s.zones[z].nfree == s.zones[z].nmax
    ensures Inv(Retire(s, zp, z), zp, all)
    ensures forall b :: IsLive(Retire(s, zp, z).zones, b) <==> IsLive(s.zones, b)
  {
    hide ZoneOk, LiveIn, Indexed, Owners, ArrayOk, Pages.Inv, Clear;
    var i := s.zones[z].zi;
    var s1 := s.(zones := s.zones - {z}, lists := s.lists[i := Remove(At(s.lists, i), z)], spare := [z] + s.spare);
    RetireLists(s.zones, s.lists, z);
    assert Held(s1) == Held(s);
    NewHead(s.spare, z);
    if |s1.spare| > SpareLimit {
      var s2 := s1.(spare := s.spare);
      ReleasePages(s2, zp, all, Held(s), z);
      assert Held(s2) == Held(s) - {z};
    }
    ZoneAt(s, zp, z);
    forall b ensures IsLive(s1.zones, b) <==> IsLive(s.zones, b) {
      AllFree(zp, z, s.zones[z], b);
      if IsLive(s.zones, b) {
        var t :| t in s.zones && LiveIn(t, s.zones[t], b);
        assert t in s1.zones && LiveIn(t, s1.zones[t], b);
      }
    }
  }

  lemma FreeLargeKeeps(s: State, zp: ZonePages, all: set<Page>, p: Page, n: nat)
    requires Inv(s, zp, all) && n > 0 && Use(s.usage, p) == Large(n)
    ensures Inv(FreeLarge(s, p, n), zp, all) && FreeLarge(s, p, n).zones == s.zones
    ensures !LargeStart(FreeLarge(s, p, n).usage, p)
  {
    hide ZonesOk, ArrayOk, Pages.Inv, Span, Indexed, Owners;
    LargeOwned(s, zp, all, p, n);
    StepKeepsInv(s.pool, all, FreeCall(p, n));
    IndexedOther(s.usage, s.usage[p := Large(0)], Held(s), zp, p);
    OwnersUnlarge(s.usage, Held(s), zp, p, s.pool.owned);
  }

  lemma LargeOwned(s: State, zp: ZonePages, all: set<Page>, p: Page, n: nat)
    requires Inv(s, zp, all) && n > 0 && Use(s.usage, p) == Large(n)
    ensures Legal(s.pool, FreeCall(p, n)) && p !in Held(s)
    ensures forall t :: t in Held(s) ==> p !in Span(t, zp)
  {
    hide ZonesOk, ArrayOk, OwnedPages, Canonical, PagesOf, Span, Indexed;
    assert LargeStart(s.usage, p);
    StartOwned(s.pool.owned, p, n);
  }

  lemma OwnersUnlarge(usage: map<Page, Usage>, held: set<Page>, zp: ZonePages, p: Page, owned: map<Page, nat>)
    requires Owners(zp, usage, held, owned) && LargeStart(usage, p)
    ensures Owners(zp, usage[p := Large(0)], held, owned - {p})
  {
    forall q | LargeStart(usage[p := Large(0)], q) ensures q != p && LargeStart(usage, q) {
    }
  }

  /** What may be passed to `rt_free`: a live chunk, or the start of a large block. */
  ghost predicate Freeable(s: State, a: Addr) {
    IsLive(s.zones, a) || (a % PageSize == 0 && LargeStart(s.usage, a / PageSize))
  }

  /** A freed chunk is found in its zone and leaves the chunks in use; all others stay in use. */
  lemma FreeKeepsInv(s: State, zp: ZonePages, all: set<Page>, a: Addr)
    requires Inv(s, zp, all) && Freeable(s, a)
    ensures Inv(Free(s, zp, a), zp, all)
    ensures forall b :: IsLive(Free(s, zp, a).zones, b) <==> IsLive(s.zones, b) && b != a
    ensures !LargeStart(Free(s, zp, a).usage, a / PageSize)
  {
    hide Core, FreeLarge, Retire, Push, LiveIn, HeaderOf;
    var p := a / PageSize;
    if IsLive(s.zones, a) {
      var z :| z in s.zones && LiveIn(z, s.zones[z], a);
      LiveInZone(zp, z, s.zones[z], a);
      HeaderFound(s, zp, all, z, a, 0);
      PushState(s, zp, all, z, a);
      PushedFields(s.zones[z], a);
      var zone := s.zones[z];
      var zone' := Push(zone, a);
      var lists := if zone.nfree == 0 then s.lists[zone.zi := [z] + At(s.lists, zone.zi)] else s.lists;
      var s1 := s.(zones := s.zones[z := zone'], lists := lists);
      if zone'.nfree == zone'.nmax && |At(lists, zone.zi)| > 1 {
        RetireKeeps(s1, zp, all, z);
      }
      NotLargeThere(s, zp, z, a);
    } else {
      FreeLargeKeeps(s, zp, all, p, Use(s.usage, p).count);
    }
  }

  lemma NotLargeThere(s: State, zp: ZonePages, z: Page, a: Addr)
    requires Use(s.usage, a / PageSize).Small? && z in s.zones && HeaderOf(s.usage, a) == z
    ensures !LargeStart(Free(s, zp, a).usage, a / PageSize)
  {
  }

  // ---- Runs ----

  datatype Demand = MallocDemand(size: Request) | FreeDemand(a: Addr)

  function Serve(s: State, zp: ZonePages, d: Demand): State {
    match d
    case MallocDemand(size) => Malloc(s, zp, size).0
    case FreeDemand(a) => Free(s, zp, a)
  }

  ghost predicate LegalRun(s: State, zp: ZonePages, ds: seq<Demand>)
    decreases |ds|
  {
    ds == [] || ((ds[0].FreeDemand? ==> Freeable(s, ds[0].a)) && LegalRun(Serve(s, zp, ds[0]), zp, ds[1..]))
  }

  function RunDemands(s: State, zp: ZonePages, ds: seq<Demand>): State
    decreases |ds|
  {
    if ds == [] then s else RunDemands(Serve(s, zp, ds[0]), zp, ds[1..])
  }

  /** Every run keeps zones, lists, page index and pages consistent. */
  lemma {:induction false} AnyRun(s: State, zp: ZonePages, all: set<Page>, ds: seq<Demand>)
    requires Inv(s, zp, all) && LegalRun(s, zp, ds)
    ensures Inv(RunDemands(s, zp, ds), zp, all)
    decreases |ds|
  {
    hide Inv, Freeable, Malloc, Free;
    if ds != [] {
      match ds[0] {
        case MallocDemand(size) => MallocKeepsInv(s, zp, all, size);
        case FreeDemand(a) => FreeKeepsInv(s, zp, all, a);
      }
      AnyRun(Serve(s, zp, ds[0]), zp, all, ds[1..]);
    }
  }

  /** `rt_system_heap_init`: `m` pages are taken for the page index, the others are free, and there are no zones. */
  lemma InitInv(zp: ZonePages, start: Page, n: nat, m: nat)
    requires 0 < m < n
    ensures AllocRuns([Run(start, n)], m) == ([Run(start + m, n - m)], Some(start))
    ensures Inv(State(Pool([Run(start + m, n - m)], map[]), map[], map[], map[], []), zp, Span(start + m, n - m))
  {
    var one := [Run(start + m, n - m)];
    assert one[1..] == [] && one + [Run(start, n)][1..] == one;
    assert OwnedPages(map[]) == {};
    assert PagesOf(one) == Span(start + m, n - m);
  }
}
