/**
 The bytes of a pool of blocks: every store to a header field overwrites bytes of that header, in whatever
 way, and no others; so the payload of a block stays as long as the block does. That covers headers that are
 built over parts of older ones, as in-place growth does, and the copy of a reallocation, whose source and
 target blocks are both live and hence apart. Both heaps use this; what a payload byte is depends on the size of
 a header alone.
 */
module PoolBytes {
  import opened Common
  import opened BlockList

  type Byte = x: int | 0 <= x < 256

  /** The two pool contents differ only inside the headers at `hs`. */
  ghost predicate OnlyHeaders(g: nat, hs: set<Addr>, start: Addr, before: seq<Byte>, now: seq<Byte>) {
    && |before| == |now|
    && forall p :: 0 <= p < |now| && before[p] != now[p] ==> exists a :: a in hs && a <= start + p < a + g
  }

  lemma OnlySame(g: nat, hs: set<Addr>, start: Addr, m: seq<Byte>)
    ensures OnlyHeaders(g, hs, start, m, m)
  {
  }

  lemma OnlyTwice(g: nat, hs: set<Addr>, start: Addr, a: seq<Byte>, b: seq<Byte>, c: seq<Byte>)
    requires OnlyHeaders(g, hs, start, a, b) && OnlyHeaders(g, hs, start, b, c)
    ensures OnlyHeaders(g, hs, start, a, c)
  {
  }

  function HeaderSet(s: seq<Addr>): set<Addr> {
    set u | u in s
  }

  /** Payload byte `k` of the block headed at `a`. */
  function PayloadByte(g: nat, start: Addr, m: seq<Byte>, a: Addr, k: int): Byte {
    if start <= a + g + k < start + |m| then m[a + g + k - start] else 0
  }

  /** The first `n` payload bytes at `to` are now what those at `from` were. */
  ghost predicate Carried(g: nat, start: Addr, before: seq<Byte>, now: seq<Byte>, from: Addr, to: Addr, n: int) {
    forall k :: 0 <= k < n ==> PayloadByte(g, start, now, to, k) == PayloadByte(g, start, before, from, k)
  }

  lemma CarriedTwice(g: nat, start: Addr, a: seq<Byte>, b: seq<Byte>, c: seq<Byte>, u: Addr, v: Addr, w: Addr, n: int)
    requires Carried(g, start, a, b, u, v, n) && Carried(g, start, b, c, v, w, n)
    ensures Carried(g, start, a, c, u, w, n)
  {
  }

  /** Payload bytes of a block are in no header. */
  lemma PayloadApart(g: HeaderSize, addrs: seq<Addr>, i: nat, p: nat, a: Addr)
    requires Spaced(g, addrs) && i + 1 < |addrs| && addrs[i] + g <= p < addrs[i + 1] && a in addrs
    ensures !(a <= p < a + g)
  {
    var k :| 0 <= k < |addrs| && addrs[k] == a;
    if k < i { assert addrs[k] + g <= addrs[i]; }
    if k > i + 1 { assert addrs[i + 1] + g <= addrs[k]; }
  }

  lemma OutsideKept(g: nat, hs: set<Addr>, start: Addr, m0: seq<Byte>, m1: seq<Byte>, u: Addr, k: nat)
    requires OnlyHeaders(g, hs, start, m0, m1) && forall a :: a in hs ==> !(a <= u + g + k < a + g)
    ensures PayloadByte(g, start, m1, u, k) == PayloadByte(g, start, m0, u, k)
  {
  }

  ghost predicate Pooled(addrs: seq<Addr>, start: Addr, size: nat) {
    forall a :: a in addrs ==> start <= a <= start + size
  }

  /** Header stores leave a live payload alone, as far as it belongs to the block both before and after. */
  lemma PayloadKept(g: HeaderSize, was: seq<Addr>, now: seq<Addr>, hs: set<Addr>, start: Addr, size: nat,
                    m0: seq<Byte>, m1: seq<Byte>, u: Addr, n: int)
    requires Spaced(g, was) && Spaced(g, now) && Pooled(was, start, size)
    requires forall a :: a in hs ==> a in was || a in now || a >= start + size || a + g <= start
    requires OnlyHeaders(g, hs, start, m0, m1)
    requires u in was && u in now && n <= SizeAt(g, was, u) && n <= SizeAt(g, now, u)
    ensures Carried(g, start, m0, m1, u, u, n)
  {
    hide OnlyHeaders, Spaced;
    var i, j := Index(was, u), Index(now, u);
    if n > 0 { assert was[i + 1] in was; }
    forall k | 0 <= k < n ensures PayloadByte(g, start, m1, u, k) == PayloadByte(g, start, m0, u, k) {
      var p := u + g + k;
      forall a | a in hs ensures !(a <= p < a + g) {
        if a in was { PayloadApart(g, was, i, p, a); }
        if a in now { PayloadApart(g, now, j, p, a); }
      }
      OutsideKept(g, hs, start, m0, m1, u, k);
    }
  }

  /** Every live block but the one at `at` still holds the bytes it held. */
  ghost predicate OthersKept(g: nat, start: Addr, addrs: seq<Addr>, used: set<Addr>, at: Option<Addr>,
                             m0: seq<Byte>, m1: seq<Byte>) {
    forall u: Addr :: LiveIn(addrs, used, u) && Some(u) != at ==> Carried(g, start, m0, m1, u, u, SizeAt(g, addrs, u))
  }

  lemma SameKept(g: nat, start: Addr, addrs: seq<Addr>, used: set<Addr>, at: Option<Addr>, m: seq<Byte>)
    ensures OthersKept(g, start, addrs, used, at, m, m)
  {
  }

  lemma StoresKeep(g: HeaderSize, was: seq<Addr>, used: set<Addr>, now: seq<Addr>, used': set<Addr>, at: Option<Addr>,
                   hs: set<Addr>, start: Addr, size: nat, m0: seq<Byte>, m1: seq<Byte>)
    requires Spaced(g, was) && Spaced(g, now) && Pooled(was, start, size)
    requires forall a :: a in hs ==> a in was || a in now || a >= start + size || a + g <= start
    requires OnlyHeaders(g, hs, start, m0, m1) && OthersStayIn(g, was, used, now, used', at)
    ensures OthersKept(g, start, was, used, at, m0, m1)
  {
    hide Spaced, OnlyHeaders, Carried, SizeAt;
    forall u: Addr | LiveIn(was, used, u) && Some(u) != at ensures Carried(g, start, m0, m1, u, u, SizeAt(g, was, u)) {
      assert StaysIn(g, was, used, now, used', u);
      PayloadKept(g, was, now, hs, start, size, m0, m1, u, SizeAt(g, was, u));
    }
  }

  lemma KeptTwice(g: nat, start: Addr, addrs: seq<Addr>, used: set<Addr>, addrs1: seq<Addr>, used1: set<Addr>,
                  at: Option<Addr>, m0: seq<Byte>, m1: seq<Byte>, m2: seq<Byte>)
    requires OthersKept(g, start, addrs, used, at, m0, m1) && OthersStayIn(g, addrs, used, addrs1, used1, at)
    requires OthersKept(g, start, addrs1, used1, at, m1, m2)
    ensures OthersKept(g, start, addrs, used, at, m0, m2)
  {
    hide LiveIn, SizeAt, Carried;
    forall u: Addr | LiveIn(addrs, used, u) && Some(u) != at
      ensures Carried(g, start, m0, m2, u, u, SizeAt(g, addrs, u))
    {
      assert StaysIn(g, addrs, used, addrs1, used1, u);
      CarriedTwice(g, start, m0, m1, m2, u, u, u, SizeAt(g, addrs, u));
    }
  }

  /** The payloads of two live blocks do not overlap, and lie in the pool. */
  lemma LiveApart(g: HeaderSize, addrs: seq<Addr>, used: set<Addr>, start: Addr, size: nat, u: Addr, v: Addr)
    requires Spaced(g, addrs) && Pooled(addrs, start, size) && LiveIn(addrs, used, u) && LiveIn(addrs, used, v)
    ensures start <= u && 0 <= SizeAt(g, addrs, u) && u + g + SizeAt(g, addrs, u) <= start + size
    ensures u < v ==> u + g + SizeAt(g, addrs, u) <= v
  {
    var i, j := Index(addrs, u), Index(addrs, v);
    assert addrs[i] in addrs && addrs[i + 1] in addrs && addrs[i] + g <= addrs[i + 1];
    if j < i { assert addrs[j] + g <= addrs[i]; }
    if i + 1 < j { assert addrs[i + 1] + g <= addrs[j]; }
  }

  /** A copy into a block that was not live before disturbs no block that was. */
  lemma CopyKeeps(g: HeaderSize, addrs: seq<Addr>, used: set<Addr>, addrs1: seq<Addr>, used1: set<Addr>,
                  start: Addr, size: nat, q: Addr, n: nat, m0: seq<Byte>, m1: seq<Byte>)
    requires Spaced(g, addrs1) && Pooled(addrs1, start, size) && LiveIn(addrs1, used1, q) && q !in used
    requires n <= SizeAt(g, addrs1, q) && OthersStayIn(g, addrs, used, addrs1, used1, None) && |m0| == |m1| == size
    requires forall p :: 0 <= p < size && !(q + g - start <= p < q + g - start + n) ==> m1[p] == m0[p]
    ensures OthersKept(g, start, addrs, used, None, m0, m1)
  {
    hide Spaced, Pooled, SizeAt;
    forall u: Addr | LiveIn(addrs, used, u) ensures Carried(g, start, m0, m1, u, u, SizeAt(g, addrs, u)) {
      assert StaysIn(g, addrs, used, addrs1, used1, u) && u != q;
      LiveApart(g, addrs1, used1, start, size, u, q);
      LiveApart(g, addrs1, used1, start, size, q, u);
    }
  }

  lemma KeptOne(g: nat, start: Addr, addrs: seq<Addr>, used: set<Addr>, at: Option<Addr>, u: Addr, n: int,
                m0: seq<Byte>, m1: seq<Byte>)
    requires OthersKept(g, start, addrs, used, at, m0, m1) && LiveIn(addrs, used, u) && Some(u) != at
             && n <= SizeAt(g, addrs, u)
    ensures Carried(g, start, m0, m1, u, u, n)
  {
    hide LiveIn, SizeAt;
    assert Carried(g, start, m0, m1, u, u, SizeAt(g, addrs, u));
  }

  lemma KeptMore(g: nat, start: Addr, addrs: seq<Addr>, used: set<Addr>, at: Option<Addr>, m0: seq<Byte>, m1: seq<Byte>)
    requires OthersKept(g, start, addrs, used, None, m0, m1)
    ensures OthersKept(g, start, addrs, used, at, m0, m1)
  {
    hide LiveIn, SizeAt, Carried;
  }

  /** Allocating, copying and freeing: three steps that keep the other blocks keep them together. */
  lemma KeptThree(g: nat, start: Addr, addrs: seq<Addr>, used: set<Addr>, addrs1: seq<Addr>, used1: set<Addr>, a: Addr,
                  m0: seq<Byte>, m1: seq<Byte>, m2: seq<Byte>, m3: seq<Byte>)
    requires OthersStayIn(g, addrs, used, addrs1, used1, None)
    requires OthersKept(g, start, addrs, used, None, m0, m1) && OthersKept(g, start, addrs, used, None, m1, m2)
    requires OthersKept(g, start, addrs1, used1, Some(a), m2, m3)
    ensures OthersKept(g, start, addrs, used, Some(a), m0, m3)
  {
    hide LiveIn, SizeAt, Carried, StaysIn;
    SelfStays(g, addrs, used);
    KeptTwice(g, start, addrs, used, addrs, used, None, m0, m1, m2);
    KeptMore(g, start, addrs, used, Some(a), m0, m2);
    KeptTwice(g, start, addrs, used, addrs1, used1, Some(a), m0, m2, m3);
  }

  lemma SelfStays(g: nat, addrs: seq<Addr>, used: set<Addr>)
    ensures OthersStayIn(g, addrs, used, addrs, used, None)
  {
  }

  /** A store to the fields of the header at `a`: its bytes change in whatever way. */
  method StoreHeader(g: nat, mem: array<Byte>, start: Addr, a: Addr, ghost hs: set<Addr>)
    requires a in hs
    modifies mem
    ensures OnlyHeaders(g, hs, start, old(mem[..]), mem[..])
  {
    var p := if a < start then 0 else a - start;
    while p < mem.Length && p + start < a + g
      invariant forall k :: 0 <= k < mem.Length && mem[k] != old(mem[k]) ==> a <= start + k < a + g
    {
      mem[p] := *;
      p := p + 1;
    }
  }

  method StoreHeaders(g: nat, mem: array<Byte>, start: Addr, a: Addr, b: Addr, c: Addr, ghost hs: set<Addr>)
    requires {a, b, c} <= hs
    modifies mem
    ensures OnlyHeaders(g, hs, start, old(mem[..]), mem[..])
  {
    hide OnlyHeaders;
    StoreHeader(g, mem, start, a, hs);
    ghost var one := mem[..];
    StoreHeader(g, mem, start, b, hs);
    ghost var two := mem[..];
    StoreHeader(g, mem, start, c, hs);
    OnlyTwice(g, hs, start, old(mem[..]), one, two);
    OnlyTwice(g, hs, start, old(mem[..]), two, mem[..]);
  }

  /** `rt_memcpy` of `n` payload bytes. */
  method CopyPayload(g: nat, mem: array<Byte>, start: Addr, from: Addr, to: Addr, n: nat)
    requires start <= from + g && from + g + n <= start + mem.Length
    requires start <= to + g && to + g + n <= start + mem.Length
    requires from + g + n <= to + g || to + g + n <= from + g
    modifies mem
    ensures Carried(g, start, old(mem[..]), mem[..], from, to, n)
    ensures forall p :: 0 <= p < mem.Length && !(to + g - start <= p < to + g - start + n) ==> mem[p] == old(mem[p])
  {
    var k := 0;
    while k < n
      invariant 0 <= k <= n
      invariant forall p :: 0 <= p < mem.Length && !(to + g - start <= p < to + g - start + k) ==> mem[p] == old(mem[p])
      invariant Carried(g, start, old(mem[..]), mem[..], from, to, k)
    {
      ghost var was := mem[..];
      mem[to + g - start + k] := mem[from + g - start + k];
      forall d | 0 <= d < k
        ensures PayloadByte(g, start, mem[..], to, d) == PayloadByte(g, start, old(mem[..]), from, d)
      {
        assert PayloadByte(g, start, was, to, d) == PayloadByte(g, start, old(mem[..]), from, d);
      }
      k := k + 1;
    }
  }
}
