/**
 Blocks in address order: the addresses of their headers, which of them are used, and what putting a header
 in, taking one out and marking one does. Headers are at least `g` apart, `g` being the size of a header. Both
 boundary-linked heaps, memheap.c and mem.c, are built on this: the lemmas about free bytes give their
 accounting, those about blocks that stay give non-interference.
 */
module BlockList {
  import opened Common

  type Addr = nat

  type HeaderSize = g: int | g > 0 witness 1

  // ---- The block list ----

  /** Headers in address order, none inside another. */
  ghost predicate Spaced(g: HeaderSize, addrs: seq<Addr>) {
    forall i, j :: 0 <= i < j < |addrs| ==> addrs[i] + g <= addrs[j]
  }

  function Index(addrs: seq<Addr>, a: Addr): (i: nat)
    requires a in addrs
    ensures i < |addrs| && addrs[i] == a
  {
    if addrs[0] == a then 0 else 1 + Index(addrs[1..], a)
  }

  lemma IndexUnique(g: HeaderSize, addrs: seq<Addr>, i: nat)
    requires Spaced(g, addrs) && i < |addrs|
    ensures addrs[i] in addrs && Index(addrs, addrs[i]) == i
  {
    if i > 0 {
      assert addrs[0] + g <= addrs[i];
      IndexUnique(g, addrs[1..], i - 1);
    }
  }

  /** The free bytes between a header and the next one. */
  function Gap(g: nat, used: set<Addr>, a: Addr, next: Addr): int {
    if a in used then 0 else next - a - g
  }

  /** The summed payload of the free blocks. */
  function FreeBytes(g: nat, addrs: seq<Addr>, used: set<Addr>): int {
    if |addrs| < 2 then 0 else Gap(g, used, addrs[0], addrs[1]) + FreeBytes(g, addrs[1..], used)
  }

  lemma {:induction false} FreeBytesSplit(g: nat, a: seq<Addr>, b: seq<Addr>, used: set<Addr>)
    requires a != [] && b != []
    ensures FreeBytes(g, a + b, used) == FreeBytes(g, a, used) + Gap(g, used, a[|a| - 1], b[0]) + FreeBytes(g, b, used)
  {
    TailOfJoin(a, b);
    if |a| == 1 {
      assert a[1..] + b == b && (a + b)[1] == b[0];
    } else {
      assert (a + b)[1] == a[1];
      FreeBytesSplit(g, a[1..], b, used);
    }
  }

  /** The used bit of a list's last header and of headers elsewhere does not matter to its free bytes. */
  lemma {:induction false} FreeBytesFrame(g: nat, addrs: seq<Addr>, used: set<Addr>, used': set<Addr>)
    requires forall i :: 0 <= i < |addrs| - 1 ==> (addrs[i] in used <==> addrs[i] in used')
    ensures FreeBytes(g, addrs, used) == FreeBytes(g, addrs, used')
  {
    if |addrs| >= 2 {
      FreeBytesFrame(g, addrs[1..], used, used');
    }
  }

  /** A new header at position `i` splits the gap it falls into. */
  lemma InsertBytes(g: nat, addrs: seq<Addr>, used: set<Addr>, i: nat, x: Addr)
    requires 0 < i < |addrs|
    ensures FreeBytes(g, InsertAt(addrs, i, x), used)
            == FreeBytes(g, addrs, used) - Gap(g, used, addrs[i - 1], addrs[i]) + Gap(g, used, addrs[i - 1], x)
               + Gap(g, used, x, addrs[i])
  {
    hide FreeBytes;
    var a, b := addrs[..i], addrs[i..];
    assert addrs == a + b;
    FreeBytesSplit(g, a, b, used);
    assert InsertAt(addrs, i, x) == a + ([x] + b);
    FreeBytesSplit(g, a, [x] + b, used);
    FreeBytesSplit(g, [x], b, used);
    OneHeader(g, x, used);
  }

  lemma OneHeader(g: nat, x: Addr, used: set<Addr>)
    ensures FreeBytes(g, [x], used) == 0
  {
  }

  /** Without the header at position `i` the gap before it reaches to the next header. */
  lemma DropBytes(g: nat, addrs: seq<Addr>, used: set<Addr>, i: nat)
    requires 0 < i < |addrs| - 1
    ensures FreeBytes(g, DropAt(addrs, i), used)
            == FreeBytes(g, addrs, used) - Gap(g, used, addrs[i - 1], addrs[i]) - Gap(g, used, addrs[i], addrs[i + 1])
               + Gap(g, used, addrs[i - 1], addrs[i + 1])
  {
    hide FreeBytes, Gap;
    var d := DropAt(addrs, i);
    assert InsertAt(d, i, addrs[i]) == addrs;
    InsertBytes(g, d, used, i, addrs[i]);
  }

  /** Marking the header at position `i` used takes its payload out of the free bytes. */
  lemma MarkBytes(g: HeaderSize, e: nat, addrs: seq<Addr>, used: set<Addr>, i: nat)
    requires Spaced(g, addrs) && i + 1 < |addrs| && addrs[i] !in used
    ensures FreeBytes(e, addrs, used + {addrs[i]}) == FreeBytes(e, addrs, used) - (addrs[i + 1] - addrs[i] - e)
  {
    hide FreeBytes;
    forall k | 0 <= k < |addrs| && k != i ensures addrs[k] != addrs[i] {
      if k < i { assert addrs[k] + g <= addrs[i]; } else { assert addrs[i] + g <= addrs[k]; }
    }
    var used' := used + {addrs[i]};
    var a, b := addrs[..i + 1], addrs[i + 1..];
    assert addrs == a + b;
    FreeBytesSplit(e, a, b, used);
    FreeBytesSplit(e, a, b, used');
    FreeBytesFrame(e, a, used, used');
    FreeBytesFrame(e, b, used, used');
  }

  lemma SpacedInsert(g: HeaderSize, addrs: seq<Addr>, i: nat, x: Addr)
    requires Spaced(g, addrs) && 0 < i < |addrs| && addrs[i - 1] + g <= x && x + g <= addrs[i]
    ensures Spaced(g, InsertAt(addrs, i, x))
  {
    forall p | 0 <= p < i ensures addrs[p] + g <= x {
      if p < i - 1 { assert addrs[p] + g <= addrs[i - 1]; }
    }
    forall p | i <= p < |addrs| ensures x + g <= addrs[p] {
      if p > i { assert addrs[i] + g <= addrs[p]; }
    }
    PairsInsert(g, addrs, i, x);
  }

  lemma PairsInsert(g: HeaderSize, addrs: seq<Addr>, i: nat, x: Addr)
    requires Spaced(g, addrs) && i < |addrs|
    requires (forall p :: 0 <= p < i ==> addrs[p] + g <= x) && forall p :: i <= p < |addrs| ==> x + g <= addrs[p]
    ensures Spaced(g, InsertAt(addrs, i, x))
  {
    var r := InsertAt(addrs, i, x);
    forall j, k | 0 <= j < k < |r| ensures r[j] + g <= r[k] {
      if k < i {
        assert addrs[j] + g <= addrs[k];
      } else if j > i {
        assert addrs[j - 1] + g <= addrs[k - 1];
      } else if j < i < k {
        assert addrs[j] + g <= addrs[k - 1];
      }
    }
  }

  lemma SpacedDrop(g: HeaderSize, addrs: seq<Addr>, i: nat)
    requires Spaced(g, addrs) && i < |addrs|
    ensures Spaced(g, DropAt(addrs, i))
  {
    var r := DropAt(addrs, i);
    forall j, k | 0 <= j < k < |r| ensures r[j] + g <= r[k] {
      assert addrs[if j < i then j else j + 1] + g <= addrs[if k < i then k else k + 1];
    }
  }

  lemma InsertMembers(s: seq<Addr>, i: nat, x: Addr)
    requires i <= |s|
    ensures forall u :: u in InsertAt(s, i, x) <==> u in s || u == x
  {
    assert s == s[..i] + s[i..];
    forall u ensures u in InsertAt(s, i, x) <==> u in s || u == x {
      assert u in s <==> u in s[..i] || u in s[i..];
    }
  }

  lemma DropMembers(g: HeaderSize, s: seq<Addr>, i: nat)
    requires Spaced(g, s) && i < |s|
    ensures forall u :: u in DropAt(s, i) <==> u in s && u != s[i]
  {
    var d := DropAt(s, i);
    assert InsertAt(d, i, s[i]) == s;
    InsertMembers(d, i, s[i]);
    forall k | 0 <= k < |d| ensures d[k] != s[i] {
      if k < i { assert s[k] + g <= s[i]; } else { assert s[i] + g <= s[k + 1]; }
    }
  }

  ghost predicate Owned(addrs: seq<Addr>, used: set<Addr>) {
    forall u :: u in used ==> u in addrs
  }

  /** Of two neighbours at least one is used. */
  predicate Apart(addrs: seq<Addr>, used: set<Addr>, i: nat) {
    i + 1 < |addrs| ==> addrs[i] in used || addrs[i + 1] in used
  }

  ghost predicate NoNeighbours(addrs: seq<Addr>, used: set<Addr>) {
    forall i :: 0 <= i < |addrs| ==> Apart(addrs, used, i)
  }

  /** Two free neighbours occur at most at position `k`, with the block before it or after it. */
  ghost predicate NoNeighboursBut(addrs: seq<Addr>, used: set<Addr>, k: nat) {
    forall i :: 0 <= i < |addrs| && i != k && i + 1 != k ==> Apart(addrs, used, i)
  }

  lemma ReleaseApart(g: HeaderSize, addrs: seq<Addr>, used: set<Addr>, i: nat)
    requires Spaced(g, addrs) && i < |addrs|
    ensures NoNeighbours(addrs, used) ==> NoNeighboursBut(addrs, used - {addrs[i]}, i)
  {
    if NoNeighbours(addrs, used) {
      forall k | 0 <= k < |addrs| && k != i && k + 1 != i ensures Apart(addrs, used - {addrs[i]}, k) {
        assert Apart(addrs, used, k);
        IndexUnique(g, addrs, k);
        IndexUnique(g, addrs, i);
        if k + 1 < |addrs| { IndexUnique(g, addrs, k + 1); }
      }
    }
  }

  lemma SpacedMember(g: HeaderSize, addrs: seq<Addr>, i: nat, x: Addr)
    requires Spaced(g, addrs) && 0 < i < |addrs| && addrs[i - 1] + g <= x && x + g <= addrs[i]
    ensures x !in addrs
  {
    forall k | 0 <= k < |addrs| ensures addrs[k] != x {
      if k < i - 1 { assert addrs[k] + g <= addrs[i - 1]; }
      if k > i { assert addrs[i] + g <= addrs[k]; }
    }
  }

  lemma AlignedSum(g: int, a: int, b: int)
    requires g % 4 == 0 && a % 4 == 0 && b % 4 == 0
    ensures (a + g + b) % 4 == 0
  {
  }

  lemma CutApart(addrs: seq<Addr>, used: set<Addr>, i: nat, x: Addr)
    requires 0 < i < |addrs|
    ensures NoNeighbours(addrs, used) ==> NoNeighboursBut(InsertAt(addrs, i, x), used, i)
  {
    var r := InsertAt(addrs, i, x);
    if NoNeighbours(addrs, used) {
      forall k | 0 <= k < |r| && k != i && k + 1 != i ensures Apart(r, used, k) {
        assert Apart(addrs, used, if k < i then k else k - 1);
      }
    }
  }

  /** A free header between two used ones has no free neighbour. */
  lemma CutSettled(addrs: seq<Addr>, used: set<Addr>, i: nat, x: Addr)
    requires 0 < i < |addrs| && addrs[i - 1] in used && addrs[i] in used
    requires NoNeighboursBut(InsertAt(addrs, i, x), used, i)
    ensures NoNeighbours(InsertAt(addrs, i, x), used)
  {
    var r := InsertAt(addrs, i, x);
    forall k | 0 <= k < |r| ensures Apart(r, used, k) {
    }
  }

  lemma JoinApart(addrs: seq<Addr>, used: set<Addr>, i: nat)
    requires 0 < i < |addrs| - 1
    ensures NoNeighboursBut(addrs, used, i) ==> NoNeighboursBut(DropAt(addrs, i), used, i - 1)
    ensures NoNeighboursBut(addrs, used, i - 1) && Apart(addrs, used, i) && addrs[i] !in used
            && (i >= 2 ==> Apart(addrs, used, i - 2))
            ==> NoNeighbours(DropAt(addrs, i), used)
  {
    var r := DropAt(addrs, i);
    if NoNeighboursBut(addrs, used, i) {
      forall k | 0 <= k < |r| && k != i - 1 && k + 1 != i - 1 ensures Apart(r, used, k) {
        assert Apart(addrs, used, if k < i then k else k + 1);
      }
    }
    if NoNeighboursBut(addrs, used, i - 1) && Apart(addrs, used, i) && addrs[i] !in used
       && (i >= 2 ==> Apart(addrs, used, i - 2)) {
      forall k | 0 <= k < |r| ensures Apart(r, used, k) {
        if k < i - 2 { assert Apart(addrs, used, k); }
        if k >= i { assert Apart(addrs, used, k + 1); }
      }
    }
  }

  // ---- Whole pools ----

  /** Blocks tile the pool from its start up to the used tail header, which ends the pool. */
  ghost predicate Tiled(g: HeaderSize, addrs: seq<Addr>, used: set<Addr>, start: Addr, size: nat) {
    && |addrs| >= 2 && addrs[0] == start
    && addrs[|addrs| - 1] + g == start + size && addrs[|addrs| - 1] in used
    && Spaced(g, addrs)
    && Owned(addrs, used)
    && Aligned(addrs, start)
  }

  ghost predicate Aligned(addrs: seq<Addr>, start: Addr) {
    forall u :: u in addrs ==> (u - start) % 4 == 0
  }

  /** The payload of the block headed at `a`; nothing for the last header. */
  function SizeAt(g: nat, addrs: seq<Addr>, a: Addr): int {
    if a in addrs && Index(addrs, a) + 1 < |addrs| then addrs[Index(addrs, a) + 1] - a - g else 0
  }

  /** `u` heads a block in use that is not the last header. */
  predicate LiveIn(addrs: seq<Addr>, used: set<Addr>, u: Addr) {
    u in used && u in addrs && Index(addrs, u) + 1 < |addrs|
  }

  /** If `u` was in use it still is, with the same payload. */
  predicate StaysIn(g: nat, addrs: seq<Addr>, used: set<Addr>, addrs': seq<Addr>, used': set<Addr>, u: Addr) {
    LiveIn(addrs, used, u) ==> LiveIn(addrs', used', u) && SizeAt(g, addrs', u) == SizeAt(g, addrs, u)
  }

  lemma SizeAtIndex(g: HeaderSize, addrs: seq<Addr>, k: nat)
    requires Spaced(g, addrs) && k + 1 < |addrs|
    ensures addrs[k] in addrs && Index(addrs, addrs[k]) == k
            && SizeAt(g, addrs, addrs[k]) == addrs[k + 1] - addrs[k] - g
  {
    IndexUnique(g, addrs, k);
  }

  lemma InsertStays(g: HeaderSize, addrs: seq<Addr>, used: set<Addr>, i: nat, x: Addr, u: Addr)
    requires Spaced(g, addrs) && 0 < i < |addrs| && Spaced(g, InsertAt(addrs, i, x)) && u != addrs[i - 1]
    ensures StaysIn(g, addrs, used, InsertAt(addrs, i, x), used, u)
  {
    hide Spaced, Index, SizeAt, InsertAt;
    if LiveIn(addrs, used, u) {
      var k := Index(addrs, u);
      SizeAtIndex(g, addrs, k);
      SizeAtIndex(g, InsertAt(addrs, i, x), if k < i then k else k + 1);
    }
  }

  lemma DropStays(g: HeaderSize, addrs: seq<Addr>, used: set<Addr>, i: nat, u: Addr)
    requires Spaced(g, addrs) && 0 < i < |addrs| && Spaced(g, DropAt(addrs, i))
    requires u != addrs[i - 1] && addrs[i] !in used
    ensures StaysIn(g, addrs, used, DropAt(addrs, i), used, u)
  {
    hide Spaced, Index, SizeAt, DropAt;
    if LiveIn(addrs, used, u) {
      var k := Index(addrs, u);
      SizeAtIndex(g, addrs, k);
      SizeAtIndex(g, DropAt(addrs, i), if k < i then k else k - 1);
    }
  }

  /** Every block but the one at `at` is still in use with the same payload, if it was. */
  ghost predicate OthersStayIn(g: nat, addrs: seq<Addr>, used: set<Addr>, addrs': seq<Addr>, used': set<Addr>,
                               at: Option<Addr>) {
    forall u: Addr :: Some(u) != at ==> StaysIn(g, addrs, used, addrs', used', u)
  }

  lemma InsertedAround(addrs: seq<Addr>, i: nat, x: Addr)
    requires i + 1 < |addrs|
    ensures var r := InsertAt(addrs, i + 1, x);
            |r| == |addrs| + 1 && r[i] == addrs[i] && r[i + 1] == x && r[i + 2] == addrs[i + 1]
  {
  }
}
