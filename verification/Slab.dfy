/**
 The slab zones of slab.c on top of its page allocator: zones of equal chunks, the lists of zones with free
 chunks, the spare zones, and the page index from which a chunk's zone header is found again. This module has a
 single zone: its header, the chunks it has handed out, the chunks given back, and what taking and giving back
 one chunk changes. Module SlabHeap has the zones together.
 */
module Slab {
  import opened Common
  import opened Waiting
  import opened Pages
  import opened SizeClass

  const PageSize: nat := 4096
  /** sizeof(slab_zone): nine words. */
  const HeaderSize: nat := 36
  /** ZONE_RELEASE_THRESH */
  const SpareLimit: nat := 2

  type Addr = nat

  /** `zone_page_cnt`: zones have 32, 64 or 128 KB; requests from a quarter of it, at most 16 KB, go to pages. */
  type ZonePages = n: int | n == 8 || n == 16 || n == 32 witness 8

  function Limit(zp: ZonePages): nat {
    if zp == 8 then 8192 else 16384
  }

  predicate PowerOf2(n: nat) {
    n == 1 || (n > 0 && n % 2 == 0 && PowerOf2(n / 2))
  }

  /** Where the chunks of a zone begin: behind the header, aligned to the chunk size if that is a power of two. */
  function Offset(chunk: nat): nat
    requires chunk > 0
  {
    if PowerOf2(chunk) then RoundUp(HeaderSize, chunk) else RoundUp(HeaderSize, 8)
  }

  function Capacity(zp: ZonePages, chunk: nat): int
    requires chunk > 0
  {
    (zp * PageSize - Offset(chunk)) / chunk
  }

  /** The address of chunk `k` of the zone that starts at page `z`. */
  function Chunk(z: Page, chunk: nat, k: nat): Addr
    requires chunk > 0
  {
    z * PageSize + Offset(chunk) + k * chunk
  }

  /** Every class fits a zone with at least three chunks, behind the header and inside the zone. */
  lemma ZoneFits(zp: ZonePages, chunk: nat, k: nat)
    requires 8 <= chunk <= Limit(zp) && k < Capacity(zp, chunk)
    ensures Capacity(zp, chunk) >= 3 && Offset(chunk) >= HeaderSize
    ensures Offset(chunk) + (k + 1) * chunk <= zp * PageSize
  {
    OffsetBound(chunk);
    CapacityBound(zp * PageSize - Offset(chunk), chunk);
    MulMonotone(k + 1, Capacity(zp, chunk), chunk);
  }

  lemma OffsetBound(chunk: nat)
    requires chunk >= 8
    ensures HeaderSize <= Offset(chunk) <= (if chunk > 40 then chunk else 72)
  {
    hide RoundUp, PowerOf2;
    Units(HeaderSize, chunk);
    Units(HeaderSize, 8);
    Rounded8();
    var q := RoundUp(HeaderSize, chunk) / chunk;
    assert (q - 1) * chunk == q * chunk - chunk;
    if chunk >= HeaderSize && q >= 2 { MulMonotone(1, q - 1, chunk); }
  }

  lemma Rounded8()
    ensures RoundUp(HeaderSize, 8) == 40
  {
  }

  lemma CapacityBound(room: int, chunk: nat)
    requires chunk > 0 && room >= 3 * chunk
    ensures room / chunk >= 3 && room / chunk * chunk <= room
  {
    var d, r := room / chunk, room % chunk;
    assert room == d * chunk + r;
    if d <= 2 { MulMonotone(d, 2, chunk); }
  }

  lemma MulMonotone(a: int, b: int, c: nat)
    requires a <= b
    ensures a * c <= b * c
  {
  }

  // ---- One zone ----

  /** The header of a zone: its class, chunk size and capacity, the chunks never used, and the free chunk list. */
  datatype Zone = Zone(zi: nat, chunk: nat, nmax: int, uindex: nat, nfree: int, freed: seq<Addr>)

  /** `a` is one of the chunks handed out at some time. */
  predicate Issued(z: Page, zone: Zone, a: Addr, k: nat)
    requires zone.chunk > 0
  {
    k <= zone.uindex && a == Chunk(z, zone.chunk, k)
  }

  ghost predicate InZone(z: Page, zone: Zone, a: Addr)
    requires zone.chunk > 0
  {
    exists k: nat :: Issued(z, zone, a, k)
  }

  /** A chunk in use: handed out, and not on the free chunk list. */
  ghost predicate LiveIn(z: Page, zone: Zone, a: Addr) {
    zone.chunk > 0 && InZone(z, zone, a) && a !in zone.freed
  }

  /** `z_nfree` counts the never used chunks and the list, and the list holds distinct chunks of the zone. */
  ghost predicate ZoneOk(zp: ZonePages, z: Page, zone: Zone) {
    && zone.zi < Classes && zone.chunk == ChunkOf(zone.zi) && 8 <= zone.chunk <= Limit(zp)
    && zone.nmax == Capacity(zp, zone.chunk) && zone.uindex < zone.nmax
    && zone.nfree == zone.nmax - 1 - zone.uindex + |zone.freed|
    && NoDup(zone.freed) && forall a :: a in zone.freed ==> InZone(z, zone, a)
  }

  /** The next chunk: a never used one as long as there are any, else the head of the free chunk list. */
  function Pop(z: Page, zone: Zone): (Zone, Addr)
    requires zone.chunk > 0 && (zone.uindex + 1 == zone.nmax ==> zone.freed != [])
  {
    if zone.uindex + 1 != zone.nmax then
      (zone.(uindex := zone.uindex + 1, nfree := zone.nfree - 1), Chunk(z, zone.chunk, zone.uindex + 1))
    else
      (zone.(nfree := zone.nfree - 1, freed := zone.freed[1..]), zone.freed[0])
  }

  function Push(zone: Zone, a: Addr): Zone {
    zone.(nfree := zone.nfree + 1, freed := [a] + zone.freed)
  }

  lemma ChunksDiffer(z: Page, chunk: nat, i: nat, k: nat)
    requires chunk > 0
    ensures Chunk(z, chunk, i) == Chunk(z, chunk, k) <==> i == k
    ensures i < k ==> Chunk(z, chunk, i) + chunk <= Chunk(z, chunk, k)
  {
    if i < k { MulMonotone(i + 1, k, chunk); assert (i + 1) * chunk == i * chunk + chunk; }
    if k < i { MulMonotone(k + 1, i, chunk); assert (k + 1) * chunk == k * chunk + chunk; }
  }

  /** A chunk handed out was in use by nobody, and joins those in use. */
  lemma PopKeeps(zp: ZonePages, z: Page, zone: Zone)
    requires ZoneOk(zp, z, zone) && zone.nfree > 0
    ensures zone.uindex + 1 == zone.nmax ==> zone.freed != []
    ensures var (zone', a) := Pop(z, zone);
            && ZoneOk(zp, z, zone') && !LiveIn(z, zone, a)
            && forall b :: LiveIn(z, zone', b) <==> LiveIn(z, zone, b) || b == a
  {
    hide Chunk, Capacity;
    var (zone', a) := Pop(z, zone);
    if zone.uindex + 1 != zone.nmax {
      FreshChunk(z, zone);
      forall b ensures InZone(z, zone', b) <==> InZone(z, zone, b) || b == a {
        GrowIssued(z, zone, zone', b, a);
      }
    } else {
      assert zone.freed == [a] + zone.freed[1..];
      forall b ensures InZone(z, zone', b) <==> InZone(z, zone, b) {
        SameIssued(z, zone, zone', b);
      }
      assert a in zone.freed && a !in zone'.freed;
    }
  }

  lemma FreshChunk(z: Page, zone: Zone)
    requires zone.chunk > 0
    ensures !InZone(z, zone, Chunk(z, zone.chunk, zone.uindex + 1))
  {
    var a := Chunk(z, zone.chunk, zone.uindex + 1);
    forall k: nat ensures !Issued(z, zone, a, k) {
      ChunksDiffer(z, zone.chunk, k, zone.uindex + 1);
    }
  }

  lemma GrowIssued(z: Page, zone: Zone, zone': Zone, b: Addr, a: Addr)
    requires zone.chunk > 0 && zone'.chunk == zone.chunk && zone'.uindex == zone.uindex + 1
    requires a == Chunk(z, zone.chunk, zone.uindex + 1)
    ensures InZone(z, zone', b) <==> InZone(z, zone, b) || b == a
  {
    if InZone(z, zone, b) {
      var k: nat :| Issued(z, zone, b, k);
      assert Issued(z, zone', b, k);
    }
    if b == a { assert Issued(z, zone', b, zone'.uindex); }
    if InZone(z, zone', b) {
      var k: nat :| Issued(z, zone', b, k);
      assert k <= zone.uindex ==> Issued(z, zone, b, k);
    }
  }

  lemma SameIssued(z: Page, zone: Zone, zone': Zone, b: Addr)
    requires zone.chunk > 0 && zone'.chunk == zone.chunk && zone'.uindex == zone.uindex
    ensures InZone(z, zone', b) <==> InZone(z, zone, b)
  {
    if InZone(z, zone, b) {
      var k: nat :| Issued(z, zone, b, k);
      assert Issued(z, zone', b, k);
    }
    if InZone(z, zone', b) {
      var k: nat :| Issued(z, zone', b, k);
      assert Issued(z, zone, b, k);
    }
  }

  /** A chunk given back leaves those in use. */
  lemma PushKeeps(zp: ZonePages, z: Page, zone: Zone, a: Addr)
    requires ZoneOk(zp, z, zone) && LiveIn(z, zone, a)
    ensures var zone' := Push(zone, a);
            && ZoneOk(zp, z, zone')
            && forall b :: LiveIn(z, zone', b) <==> LiveIn(z, zone, b) && b != a
  {
    hide Issued, Capacity, Chunk;
    var zone' := Push(zone, a);
    forall b ensures InZone(z, zone', b) <==> InZone(z, zone, b) {
      SameIssued(z, zone, zone', b);
    }
  }

  /** A zone whose chunks are all free has none in use. */
  lemma AllFree(zp: ZonePages, z: Page, zone: Zone, a: Addr)
    requires ZoneOk(zp, z, zone) && zone.nfree == zone.nmax
    ensures !LiveIn(z, zone, a)
  {
    hide Capacity;
    var s := Members(zone.freed);
    DistinctCount(zone.freed);
    IssuedCount(z, zone.chunk, zone.uindex);
    var t := IssuedSet(z, zone.chunk, zone.uindex);
    forall b | b in s ensures b in t {
      var k: nat :| Issued(z, zone, b, k);
      InIssued(z, zone.chunk, zone.uindex, k);
    }
    SubsetFull(s, t);
    if InZone(z, zone, a) {
      var k: nat :| Issued(z, zone, a, k);
      InIssued(z, zone.chunk, zone.uindex, k);
    }
  }

  function IssuedSet(z: Page, chunk: nat, u: nat): set<Addr>
    requires chunk > 0
  {
    {Chunk(z, chunk, u)} + if u == 0 then {} else IssuedSet(z, chunk, u - 1)
  }

  lemma {:induction false} IssuedCount(z: Page, chunk: nat, u: nat)
    requires chunk > 0
    ensures |IssuedSet(z, chunk, u)| == u + 1
    ensures forall a :: a in IssuedSet(z, chunk, u) ==> a <= Chunk(z, chunk, u)
  {
    hide Chunk;
    if u > 0 {
      IssuedCount(z, chunk, u - 1);
      ChunksDiffer(z, chunk, u - 1, u);
    }
  }

  lemma {:induction false} InIssued(z: Page, chunk: nat, u: nat, k: nat)
    requires chunk > 0 && k <= u
    ensures Chunk(z, chunk, k) in IssuedSet(z, chunk, u)
  {
    if k < u { InIssued(z, chunk, u - 1, k); }
  }

  function Members(q: seq<Addr>): (s: set<Addr>)
    ensures forall a :: a in s <==> a in q
  {
    if q == [] then {} else {q[0]} + Members(q[1..])
  }

  lemma {:induction false} DistinctCount(q: seq<Addr>)
    requires NoDup(q)
    ensures |Members(q)| == |q|
  {
    if q != [] {
      DistinctCount(q[1..]);
      assert q[0] !in q[1..];
    }
  }

  lemma SubsetFull(s: set<Addr>, t: set<Addr>)
    requires s <= t && |s| >= |t|
    ensures s == t
  {
    assert |t - s| == |t| - |s|;
  }
}
