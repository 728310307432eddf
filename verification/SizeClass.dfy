/**
 The size classes of the slab allocator: `zoneindex` and the class table it computes without a table. The code
 has eight bands, each with its own unit to round to and its own offset for the index; the table in the comment
 of slab.c has sixteen classes of 8 bytes and eight for each doubling of the size after that. The two agree on
 all sizes below 16 KB, also where one band ends and the next begins, so the index alone tells the size of a
 chunk.
 */
module SizeClass {

  type Request = x: int | 0 <= x < 0x1_0000_0000

  const Classes: nat := 72

  function RoundUp(n: nat, unit: nat): nat
    requires unit > 0
  {
    (n + (unit - 1)) / unit * unit
  }

  /** `zoneindex`: the class, and the chunk size written back. Zero underflows; large requests are refused. */
  function ZoneIndex(n: Request): (int, nat) {
    if n < 128 then (RoundUp(n, 8) / 8 - 1, RoundUp(n, 8))
    else if n < 256 then (RoundUp(n, 16) / 16 + 7, RoundUp(n, 16))
    else if n < 8192 then
      if n < 512 then (RoundUp(n, 32) / 32 + 15, RoundUp(n, 32))
      else if n < 1024 then (RoundUp(n, 64) / 64 + 23, RoundUp(n, 64))
      else if n < 2048 then (RoundUp(n, 128) / 128 + 31, RoundUp(n, 128))
      else if n < 4096 then (RoundUp(n, 256) / 256 + 39, RoundUp(n, 256))
      else (RoundUp(n, 512) / 512 + 47, RoundUp(n, 512))
    else if n < 16384 then (RoundUp(n, 1024) / 1024 + 55, RoundUp(n, 1024))
    else (0, n)
  }

  /** The classes as the comment of slab.c tabulates them: sixteen of 8 bytes, then eight for each doubling. */
  function ChunkOf(i: nat): nat {
    if i < 16 then (i + 1) * 8
    else if i < 24 then (i - 7) * 16
    else if i < 32 then (i - 15) * 32
    else if i < 40 then (i - 23) * 64
    else if i < 48 then (i - 31) * 128
    else if i < 56 then (i - 39) * 256
    else if i < 64 then (i - 47) * 512
    else (i - 55) * 1024
  }

  lemma ChunkOfAscends(i: nat, k: nat)
    requires i < k < Classes
    ensures ChunkOf(i) < ChunkOf(k)
    decreases k - i
  {
    if i + 1 < k {
      ChunkOfAscends(i + 1, k);
    }
  }

  /** The class chosen for a request is the smallest whose chunks hold it, at every band boundary too. */
  lemma SmallestClass(n: Request)
    requires 1 <= n < 16384
    ensures var (i, chunk) := ZoneIndex(n);
            && 0 <= i < Classes && chunk == ChunkOf(i)
            && n <= chunk && (i > 0 ==> ChunkOf(i - 1) < n)
  {
    hide RoundUp;
    var unit := if n < 128 then 8 else if n < 256 then 16 else if n < 512 then 32 else if n < 1024 then 64
                else if n < 2048 then 128 else if n < 4096 then 256 else if n < 8192 then 512 else 1024;
    Units(n, unit);
  }

  /** A rounded size is the least multiple of the unit that holds the request. */
  lemma Units(n: nat, unit: nat)
    requires unit > 0 && n > 0
    ensures var q := RoundUp(n, unit) / unit; q * unit == RoundUp(n, unit) && (q - 1) * unit < n <= q * unit
  {
    var q := (n + (unit - 1)) / unit;
    var r := (n + (unit - 1)) % unit;
    assert n + (unit - 1) == q * unit + r;
    MultipleOver(q, unit);
    assert (q - 1) * unit == q * unit - unit;
  }

  lemma MultipleOver(q: nat, unit: nat)
    requires unit > 0
    ensures q * unit / unit == q
  {
    if q > 0 {
      MultipleOver(q - 1, unit);
      assert q * unit == (q - 1) * unit + unit;
      assert ((q - 1) * unit + unit) / unit == (q - 1) * unit / unit + 1;
    }
  }

  /** Larger requests get no smaller class, and the class determines the chunk size and is determined by it. */
  lemma Monotone(n: Request, m: Request)
    requires 1 <= n <= m < 16384
    ensures var ((i, a), (k, b)) := (ZoneIndex(n), ZoneIndex(m));
            i <= k && a <= b && (i == k <==> a == b)
  {
    hide ZoneIndex, ChunkOf;
    SmallestClass(n);
    SmallestClass(m);
    var (i, a) := ZoneIndex(n);
    var (k, b) := ZoneIndex(m);
    if k < i {
      if k < i - 1 { ChunkOfAscends(k, i - 1); }
      assert false;
    }
    if i < k { ChunkOfAscends(i, k); }
  }

  /** Rounding an already rounded size changes nothing; the class is found again exactly below the top class. */
  lemma Idempotent(n: Request)
    requires 1 <= n < 16384
    ensures var (i, chunk) := ZoneIndex(n);
            && ZoneIndex(chunk).1 == chunk
            && (ZoneIndex(chunk).0 == i <==> n <= 15360)
  {
    hide ZoneIndex, ChunkOf;
    SmallestClass(n);
    var (i, chunk) := ZoneIndex(n);
    TopClass(n);
    if chunk < 16384 {
      SmallestClass(chunk);
      var (k, again) := ZoneIndex(chunk);
      if k < i { ChunkOfAscends(k, i); }
      if i < k - 1 { ChunkOfAscends(i, k - 1); }
    }
  }

  lemma TopClass(n: Request)
    requires 1 <= n < 16384
    ensures ZoneIndex(n).1 <= 16384 && (ZoneIndex(n).1 == 16384 <==> n > 15360)
    ensures n > 15360 ==> ZoneIndex(n).0 == 71 && ZoneIndex(16384) == (0, 16384)
  {
  }

  /** Below 128 bytes less than 8 are wasted, above less than an eighth of the request. */
  lemma Waste(n: Request)
    requires 1 <= n < 16384
    ensures var chunk := ZoneIndex(n).1;
            if n < 128 then chunk - n < 8 else 8 * (chunk - n) < n
  {
  }
}
