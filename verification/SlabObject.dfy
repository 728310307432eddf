/**
 The slab allocator in place: page list, page index, zone headers, zone lists and spare zones. The loops are
 those of slab.c: marking and clearing the page index and finding a zone in its list. Each method is proved to be
 the function of the same name on values, so what module SlabHeap proves about calls and runs of them holds of
 the allocator in place. The page list is the object of module Pages, and the owner of each stretch of pages is
 kept beside it.
 */
module SlabObjects {
  import opened Common
  import opened Waiting
  import opened Pages
  import opened SizeClass
  import opened Slab
  import opened SlabHeap

  class SlabObject {
    const zp: ZonePages
    const pages: PageList
    var usage: map<Page, Usage>
    var zones: map<Page, Zone>
    var lists: map<nat, seq<Page>>
    var spare: seq<Page>
    /** The stretches of pages handed out by the page allocator. */
    ghost var owned: map<Page, nat>

    ghost function Abs(): State
      reads this, pages
    {
      State(Pool(pages.runs, owned), usage, zones, lists, spare)
    }

    ghost predicate Valid(all: set<Page>)
      reads this, pages
    {
      SlabHeap.Inv(Abs(), zp, all)
    }

    /** `rt_system_heap_init`, with `m` of the `n` pages for the page index. */
    constructor (zp: ZonePages, start: Page, n: nat, m: nat)
      requires 0 < m < n
      ensures Valid(Span(start + m, n - m)) && fresh(pages) && this.zp == zp && zones == map[]
    {
      this.zp := zp;
      pages := new PageList(start, n);
      usage, zones, lists, spare := map[], map[], map[], [];
      owned := map[];
      new;
      InitInv(zp, start, n, m);
      var _ := pages.PageAlloc(m);
    }

    lemma PoolOk(all: set<Page>)
      requires Valid(all)
      ensures Pages.Inv(Pool(pages.runs, owned), all) && Canonical(pages.runs)
    {
    }

    /** `rt_page_alloc` for the allocator itself. */
    method TakeStretch(n: nat, ghost all: set<Page>) returns (p: Option<Page>)
      requires Pages.Inv(Pool(pages.runs, owned), all)
      modifies pages, this`owned
      ensures (Pool(pages.runs, owned), p) == TakePages(old(Pool(pages.runs, owned)), n)
    {
      hide OwnedPages, PagesOf, Canonical, AllocRuns;
      p := pages.PageAlloc(n);
      if p.Some? {
        owned := owned[p.value := n];
      }
    }

    /** `rt_page_free`. */
    method GiveStretch(s: Page, n: nat, ghost all: set<Page>)
      requires Pages.Inv(Pool(pages.runs, owned), all) && Legal(Pool(pages.runs, owned), FreeCall(s, n))
      modifies pages, this`owned
      ensures Pool(pages.runs, owned) == Step(old(Pool(pages.runs, owned)), FreeCall(s, n))
    {
      hide OwnedPages, PagesOf, Canonical, FreeRuns, Span;
      OwnedRemove(owned, s);
      NotEmpty(owned, s);
      pages.PageFree(s, n);
      owned := owned - {s};
    }

    /** The loop that marks the pages of a new zone. */
    method MarkSmall(z: Page)
      modifies this`usage
      ensures usage == SetSmall(old(usage), z, zp)
    {
      var off := 0;
      while off < zp
        invariant 0 <= off <= zp
        invariant forall p: Page :: p in usage <==> p in old(usage) || z <= p < z + off
        invariant forall p: Page :: p in usage ==> usage[p] == if z <= p < z + off then Small(p - z) else old(usage)[p]
      {
        usage := usage[z + off := Small(off)];
        off := off + 1;
      }
      forall p: Page ensures p in Span(z, zp) <==> z <= p < z + zp {
        assert InRun(p, z, zp) <==> z <= p < z + zp;
      }
    }

    /** The loop that clears the pages of a released zone. */
    method ClearMarks(z: Page)
      modifies this`usage
      ensures usage == Clear(old(usage), z, zp)
    {
      var i := 0;
      while i < zp
        invariant 0 <= i <= zp
        invariant forall p: Page :: p in usage <==> p in old(usage) || z <= p < z + i
        invariant forall p: Page :: p in usage ==> usage[p] == if z <= p < z + i then Unused else old(usage)[p]
      {
        usage := usage[z + i := Unused];
        i := i + 1;
      }
      forall p: Page ensures p in Span(z, zp) <==> z <= p < z + zp {
        assert InRun(p, z, zp) <==> z <= p < z + zp;
      }
    }

    /** A zone header is written at `z`, and the zone linked at the head of its class. */
    method Open(z: Page, i: nat, chunk: nat) returns (a: Addr)
      requires chunk > 0
      modifies this`zones, this`lists
      ensures (Abs(), Some(a)) == OpenZone(old(Abs()), zp, z, i, chunk)
    {
      var nmax := Capacity(zp, chunk);
      zones := zones[z := Zone(i, chunk, nmax, 0, nmax - 1, [])];
      lists := lists[i := [z] + At(lists, i)];
      a := Chunk(z, chunk, 0);
    }

    /** The first zone of the class gives a chunk. */
    method TakeChunk(i: nat) returns (a: Addr)
      requires At(lists, i) != [] && At(lists, i)[0] in zones
      requires var zone := zones[At(lists, i)[0]]; zone.chunk > 0 && (zone.uindex + 1 == zone.nmax ==> zone.freed != [])
      modifies this`zones, this`lists
      ensures (Abs(), Some(a)) == MallocChunk(old(Abs()), i)
    {
      var z := At(lists, i)[0];
      var zone := zones[z];
      zone := zone.(nfree := zone.nfree - 1);
      if zone.nfree == 0 {
        lists := lists[i := At(lists, i)[1..]];
      }
      if zone.uindex + 1 != zone.nmax {
        zone := zone.(uindex := zone.uindex + 1);
        a := Chunk(z, zone.chunk, zone.uindex);
      } else {
        a := zone.freed[0];
        zone := zone.(freed := zone.freed[1..]);
      }
      zones := zones[z := zone];
    }

    lemma HeadReady(i: nat, all: set<Page>)
      requires Valid(all) && At(lists, i) != []
      ensures At(lists, i)[0] in zones
      ensures var zone := zones[At(lists, i)[0]]; zone.chunk > 0 && (zone.uindex + 1 == zone.nmax ==> zone.freed != [])
    {
      hide ZoneOk, Indexed, Owners, ArrayOk, Pages.Inv;
      ListHead(Abs(), i);
      ZoneAt(Abs(), zp, At(lists, i)[0]);
      PopKeeps(zp, At(lists, i)[0], zones[At(lists, i)[0]]);
    }

    /** `rt_malloc`. */
    method Malloc(size: Request, ghost all: set<Page>) returns (r: Option<Addr>)
      requires Valid(all)
      modifies this, pages
      ensures Valid(all) && (Abs(), r) == SlabHeap.Malloc(old(Abs()), zp, size)
    {
      hide SlabHeap.Inv, Pages.Inv, OpenZone, MallocChunk, SetSmall, At, TakePages, ZoneIndex, LargePages;
      MallocKeepsInv(Abs(), zp, all, size);
      PoolOk(all);
      if size == 0 { return None; }
      if size >= Limit(zp) {
        var n := LargePages(size);
        var p := TakeStretch(n, all);
        if p.None? { return None; }
        usage := usage[p.value := Large(n)];
        return Some(p.value * PageSize);
      }
      SmallestClass(size);
      ClassFits(size, zp);
      var (zi, chunk) := ZoneIndex(size);
      var i: nat := zi;
      if At(lists, i) != [] {
        HeadReady(i, all);
        var a := TakeChunk(i);
        return Some(a);
      }
      var z;
      if spare != [] {
        z := spare[0];
        spare := spare[1..];
      } else {
        var p := TakeStretch(zp, all);
        if p.None? { return None; }
        z := p.value;
        MarkSmall(z);
      }
      var a := Open(z, i, chunk);
      return Some(a);
    }

    lemma RemoveStep(q: seq<Page>, n: nat, z: Page)
      requires n < |q| && q[n] != z
      ensures q[..n] + Remove(q[n..], z) == q[..n + 1] + Remove(q[n + 1..], z)
      ensures z in q[n..] ==> z in q[n + 1..]
    {
      assert q[n..][0] == q[n] && q[n..][1..] == q[n + 1..];
      assert q[n..] == [q[n]] + q[n + 1..];
      assert q[..n + 1] == q[..n] + [q[n]];
    }

    /** The loop that finds a zone in the list of its class and unlinks it. */
    method Unlink(z: Page, i: nat)
      requires z in At(lists, i)
      modifies this`lists
      ensures lists == old(lists)[i := Remove(old(At(lists, i)), z)]
    {
      var q := At(lists, i);
      var n := 0;
      assert q[0..] == q;
      while q[n] != z
        invariant 0 <= n < |q| && z in q[n..] && lists == old(lists)
        invariant Remove(q, z) == q[..n] + Remove(q[n..], z)
        decreases |q| - n
      {
        RemoveStep(q, n, z);
        n := n + 1;
      }
      assert q[n..][0] == z && q[n..][1..] == q[n + 1..];
      assert Remove(q[n..], z) == q[n + 1..];
      assert Remove(q, z) == q[..n] + q[n + 1..];
      lists := lists[i := q[..n] + q[n + 1..]];
    }

    /** A zone without live chunks leaves its list; one spare zone too many goes back to the pages. */
    method RetireZone(z: Page, ghost all: set<Page>)
      requires Valid(all) && z in zones && zones[z].nfree == zones[z].nmax && z in At(lists, zones[z].zi)
      modifies this, pages
      ensures Valid(all) && Abs() == Retire(old(Abs()), zp, z)
    {
      hide SlabHeap.Inv, Pages.Inv, Remove, Clear, Step;
      RetireKeeps(Abs(), zp, all, z);
      PoolOk(all);
      ZonePagesOwned(z, all);
      Unlink(z, zones[z].zi);
      zones := zones - {z};
      spare := [z] + spare;
      if |spare| > SpareLimit {
        spare := spare[1..];
        ClearMarks(z);
        GiveStretch(z, zp, all);
      }
    }

    lemma ZonePagesOwned(z: Page, all: set<Page>)
      requires Valid(all) && z in zones
      ensures Legal(Pool(pages.runs, owned), FreeCall(z, zp))
    {
      hide Core;
      OwnedOk(Abs(), zp, all, Held(Abs()), z);
    }

    /** `rt_free` of a live chunk or a large block. */
    method Free(a: Addr, ghost all: set<Page>)
      requires Valid(all) && Freeable(Abs(), a)
      modifies this, pages
      ensures Valid(all) && Abs() == SlabHeap.Free(old(Abs()), zp, a)
    {
      hide SlabHeap.Inv, Pages.Inv, Remove, Retire, LiveIn, Step, At;
      FreeKeepsInv(Abs(), zp, all, a);
      PoolOk(all);
      var p := a / PageSize;
      if Use(usage, p).Large? {
        LargeThere(a, all);
        var n := Use(usage, p).count;
        usage := usage[p := Large(0)];
        GiveStretch(p, n, all);
      } else {
        var z := ZoneThere(a, all);
        var header := HeaderOf(usage, a);
        FreeInZone(header, a, all);
      }
    }

    lemma LargeThere(a: Addr, all: set<Page>)
      requires Valid(all) && Freeable(Abs(), a) && Use(usage, a / PageSize).Large?
      ensures Legal(Pool(pages.runs, owned), FreeCall(a / PageSize, Use(usage, a / PageSize).count))
    {
      hide Core, LiveIn;
      if IsLive(zones, a) {
        var z :| z in zones && LiveIn(z, zones[z], a);
        LiveInZone(zp, z, zones[z], a);
        HeaderFound(Abs(), zp, all, z, a, 0);
      }
      LargeOwned(Abs(), zp, all, a / PageSize, Use(usage, a / PageSize).count);
    }

    lemma ZoneThere(a: Addr, all: set<Page>) returns (z: Page)
      requires Valid(all) && Freeable(Abs(), a) && !Use(usage, a / PageSize).Large?
      ensures z == HeaderOf(usage, a) && z in zones && LiveIn(z, zones[z], a)
    {
      hide Core, LiveIn;
      z :| z in zones && LiveIn(z, zones[z], a);
      LiveInZone(zp, z, zones[z], a);
      HeaderFound(Abs(), zp, all, z, a, 0);
    }

    method FreeInZone(z: Page, a: Addr, ghost all: set<Page>)
      requires Valid(all) && z in zones && LiveIn(z, zones[z], a)
      modifies this, pages
      ensures Valid(all) && Abs() == SlabHeap.FreeChunk(old(Abs()), zp, z, a)
    {
      hide SlabHeap.Inv, Remove, Retire, LiveIn, At;
      PushState(Abs(), zp, all, z, a);
      var zone := zones[z];
      zone := zone.(freed := [a] + zone.freed);
      if zone.nfree == 0 {
        lists := lists[zone.zi := [z] + At(lists, zone.zi)];
      }
      zone := zone.(nfree := zone.nfree + 1);
      zones := zones[z := zone];
      if zone.nfree == zone.nmax && |At(lists, zone.zi)| > 1 {
        RetireZone(z, all);
      }
    }
  }
}
