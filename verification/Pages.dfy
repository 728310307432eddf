/**
 The page allocator of slab.c: a list of runs of free pages in address order. The list is the canonical form of
 the set of free pages, so what a sequence of allocations and frees leaves depends on that set alone.
 */
module Pages {
  import opened Common

  type Page = nat

  /** A free run: its first page and its length, both kept in that page. */
  datatype Run = Run(start: Page, count: nat)

  predicate InRun(p: Page, start: Page, count: nat) {
    start <= p < start + count
  }

  function Span(start: Page, count: nat): set<Page> {
    set p: Page | p < start + count && InRun(p, start, count)
  }

  function PagesOf(r: seq<Run>): set<Page> {
    if r == [] then {} else Span(r[0].start, r[0].count) + PagesOf(r[1..])
  }

  /** Sorted and disjoint, no two runs touching, none empty. */
  ghost predicate Canonical(r: seq<Run>) {
    && (forall i :: 0 <= i < |r| ==> r[i].count > 0)
    && (forall i, j :: 0 <= i < j < |r| ==> r[i].start + r[i].count < r[j].start)
  }

  ghost predicate StartsFrom(r: seq<Run>, low: int) {
    forall i :: 0 <= i < |r| ==> r[i].start >= low
  }

  lemma TailCanonical(r: seq<Run>)
    requires Canonical(r) && r != []
    ensures Canonical(r[1..]) && StartsFrom(r[1..], r[0].start + r[0].count + 1)
    ensures r[0].start in PagesOf(r)
    ensures forall p :: p in PagesOf(r[1..]) ==> p > r[0].start + r[0].count
  {
    Above(r[1..], r[0].start + r[0].count + 1);
  }

  lemma ConsCanonical(a: Run, r: seq<Run>)
    requires Canonical(r) && a.count > 0 && StartsFrom(r, a.start + a.count + 1)
    ensures Canonical([a] + r) && PagesOf([a] + r) == Span(a.start, a.count) + PagesOf(r)
    ensures forall low :: low <= a.start ==> StartsFrom([a] + r, low)
  {
    assert ([a] + r)[1..] == r;
  }

  lemma {:induction false} Above(r: seq<Run>, low: int)
    requires StartsFrom(r, low)
    ensures forall p :: p in PagesOf(r) ==> p >= low
  {
    if r != [] {
      Above(r[1..], low);
    }
  }

  /** The free list is determined by the set of free pages. */
  lemma {:induction false} CanonicalForm(r: seq<Run>, q: seq<Run>)
    requires Canonical(r) && Canonical(q) && PagesOf(r) == PagesOf(q)
    ensures r == q
  {
    if r == [] {
      if q != [] { TailCanonical(q); }
    } else {
      TailCanonical(r);
      if q != [] {
        TailCanonical(q);
        SameFirst(r, q);
        CanonicalForm(r[1..], q[1..]);
        assert r == [r[0]] + r[1..] && q == [q[0]] + q[1..];
      }
    }
  }

  lemma InFirst(r: seq<Run>, p: Page)
    requires r != [] && InRun(p, r[0].start, r[0].count)
    ensures p in PagesOf(r)
  {
  }

  lemma {:induction false} SameFirst(r: seq<Run>, q: seq<Run>)
    requires Canonical(r) && Canonical(q) && PagesOf(r) == PagesOf(q) && r != [] && q != []
    ensures r[0] == q[0] && PagesOf(r[1..]) == PagesOf(q[1..])
  {
    TailCanonical(r);
    TailCanonical(q);
    var a, b := r[0], q[0];
    assert a.start in PagesOf(q) && b.start in PagesOf(r);
    assert a.start + a.count !in PagesOf(r) && b.start + b.count !in PagesOf(q);
    var endA: Page, endB: Page := a.start + a.count, b.start + b.count;
    if a.count < b.count { InFirst(q, endA); }
    if b.count < a.count { InFirst(r, endB); }
    forall p ensures p in PagesOf(r[1..]) <==> p in PagesOf(q[1..]) {
      assert p in PagesOf(r) <==> p in Span(a.start, a.count) || p in PagesOf(r[1..]);
      assert p in PagesOf(q) <==> p in Span(b.start, b.count) || p in PagesOf(q[1..]);
    }
  }

  // ---- rt_page_alloc ----

  /** First fit: the front of the first run that is long enough. */
  function AllocRuns(r: seq<Run>, n: nat): (seq<Run>, Option<Page>) {
    if r == [] then ([], None)
    else if r[0].count > n then ([Run(r[0].start + n, r[0].count - n)] + r[1..], Some(r[0].start))
    else if r[0].count == n then (r[1..], Some(r[0].start))
    else
      var (rest, p) := AllocRuns(r[1..], n);
      ([r[0]] + rest, p)
  }

  /** Pages `s` to `s + n` lie inside one run. */
  predicate Fits(r: seq<Run>, s: Page, n: nat) {
    r != [] && ((r[0].start <= s && s + n <= r[0].start + r[0].count) || Fits(r[1..], s, n))
  }

  /** Runs do not touch, so consecutive free pages always lie inside one run. */
  lemma {:induction false} FitsIffFree(r: seq<Run>, s: Page, n: nat)
    requires Canonical(r) && n > 0
    ensures Fits(r, s, n) <==> Span(s, n) <= PagesOf(r)
  {
    assert InRun(s, s, n) && s in Span(s, n);
    if r != [] {
      var a := r[0];
      TailCanonical(r);
      FitsIffFree(r[1..], s, n);
      FitsAbove(r[1..], s, n);
      if InRun(s, a.start, a.count) {
        if a.start + a.count < s + n {
          assert a.start + a.count in Span(s, n) && a.start + a.count !in PagesOf(r);
        } else {
          forall p | p in Span(s, n) ensures p in PagesOf(r) {
            InFirst(r, p);
          }
        }
      } else {
        forall p | p in Span(s, n) && s in PagesOf(r[1..]) ensures p in PagesOf(r) <==> p in PagesOf(r[1..]) {
          assert InRun(p, s, n);
        }
      }
    }
  }

  lemma {:induction false} FitsAbove(r: seq<Run>, s: Page, n: nat)
    requires Canonical(r) && n > 0
    ensures Fits(r, s, n) ==> s in PagesOf(r)
  {
    if r != [] {
      TailCanonical(r);
      FitsAbove(r[1..], s, n);
      if Fits(r, s, n) && !Fits(r[1..], s, n) { InFirst(r, s); }
    }
  }

  /** The allocation takes the front of the lowest run that is long enough. */
  lemma {:induction false} AllocFirstFit(r: seq<Run>, n: nat)
    requires Canonical(r) && n > 0
    ensures var (r', p) := AllocRuns(r, n);
            && (p.None? ==> r' == r && forall s: Page :: !Fits(r, s, n))
            && (p.Some? ==> Fits(r, p.value, n) && forall s: Page :: Fits(r, s, n) ==> p.value <= s)
  {
    if r != [] {
      TailCanonical(r);
      forall s: Page | Fits(r[1..], s, n) ensures r[0].start <= s {
        FitsAbove(r[1..], s, n);
      }
      if r[0].count < n {
        AllocFirstFit(r[1..], n);
        assert r == [r[0]] + r[1..];
      }
    }
  }

  lemma {:induction false} AllocCanonical(r: seq<Run>, n: nat)
    requires Canonical(r) && n > 0
    ensures var (r', p) := AllocRuns(r, n);
            && Canonical(r')
            && (forall low {:trigger StartsFrom(r', low)} :: StartsFrom(r, low) ==> StartsFrom(r', low))
            && (p.Some? ==> PagesOf(r') == PagesOf(r) - Span(p.value, n))
  {
    hide Canonical, StartsFrom, PagesOf, Span;
    if r != [] {
      FirstRun(r);
      var a, rest := r[0], r[1..];
      if a.count > n {
        var cut := Run(a.start + n, a.count - n);
        FromHigher(rest, a.start + a.count + 1, cut.start + cut.count + 1);
        ConsCanonical(cut, rest);
        SpanCut(a.start, a.count, n);
      } else if a.count < n {
        AllocCanonical(rest, n);
        var (rest', p) := AllocRuns(rest, n);
        ConsCanonical(a, rest');
        if p.Some? {
          AllocFirstFit(rest, n);
          FitsIffFree(rest, p.value, n);
        }
      }
    }
  }

  lemma FromHigher(r: seq<Run>, high: int, low: int)
    requires StartsFrom(r, high) && low <= high
    ensures StartsFrom(r, low)
  {
  }

  lemma {:induction false} FirstRun(r: seq<Run>)
    requires Canonical(r) && r != []
    ensures Canonical(r[1..]) && StartsFrom(r[1..], r[0].start + r[0].count + 1) && r[0].count > 0
    ensures PagesOf(r) == Span(r[0].start, r[0].count) + PagesOf(r[1..])
    ensures Span(r[0].start, r[0].count) !! PagesOf(r[1..])
    ensures forall low :: StartsFrom(r, low) ==> low <= r[0].start && StartsFrom(r[1..], low)
  {
    TailCanonical(r);
  }

  lemma SpanCut(start: Page, count: nat, n: nat)
    requires n <= count
    ensures Span(start, count) == Span(start, n) + Span(start + n, count - n)
    ensures Span(start, n) !! Span(start + n, count - n)
  {
    forall p ensures p in Span(start, count) <==> p in Span(start, n) || p in Span(start + n, count - n) {
      assert InRun(p, start, count) <==> InRun(p, start, n) || InRun(p, start + n, count - n);
    }
  }

  /** The lowest `n` consecutive free pages leave the free set; without any, nothing changes. */
  lemma AllocPages(r: seq<Run>, n: nat)
    requires Canonical(r) && n > 0
    ensures var (r', p) := AllocRuns(r, n);
            && Canonical(r')
            && (p.None? ==> r' == r && forall s: Page :: !(Span(s, n) <= PagesOf(r)))
            && (p.Some? ==> Span(p.value, n) <= PagesOf(r) && PagesOf(r') == PagesOf(r) - Span(p.value, n)
                            && forall s: Page :: Span(s, n) <= PagesOf(r) ==> p.value <= s)
  {
    hide Canonical, AllocRuns, Span, PagesOf;
    AllocFirstFit(r, n);
    AllocCanonical(r, n);
    forall s: Page ensures Fits(r, s, n) <==> Span(s, n) <= PagesOf(r) {
      FitsIffFree(r, s, n);
    }
    var p := AllocRuns(r, n).1;
    if p.Some? { FitsIffFree(r, p.value, n); }
  }

  // ---- rt_page_free ----

  /** Links pages `s` to `s + n` back, merged with the run before and the run after where they touch. */
  function FreeRuns(r: seq<Run>, s: Page, n: nat): seq<Run> {
    if r == [] then [Run(s, n)]
    else
      var b := r[0];
      if b.start + b.count == s then
        if |r| > 1 && s + n == r[1].start then [Run(b.start, b.count + n + r[1].count)] + r[2..]
        else [Run(b.start, b.count + n)] + r[1..]
      else if b.start == s + n then [Run(s, n + b.count)] + r[1..]
      else if b.start > s + n then [Run(s, n)] + r
      else [b] + FreeRuns(r[1..], s, n)
  }

  /** Freed pages join the free set, and the list stays in canonical form. */
  lemma {:induction false} FreePages(r: seq<Run>, s: Page, n: nat)
    requires Canonical(r) && n > 0 && Span(s, n) !! PagesOf(r)
    ensures var r' := FreeRuns(r, s, n);
            && Canonical(r') && PagesOf(r') == PagesOf(r) + Span(s, n)
            && (forall low {:trigger StartsFrom(r', low)} :: StartsFrom(r, low) && low <= s ==> StartsFrom(r', low))
  {
    hide Canonical, StartsFrom, PagesOf, Span;
    if r == [] {
      EmptyRuns(s);
      ConsCanonical(Run(s, n), []);
      assert [Run(s, n)] == [Run(s, n)] + [];
    } else {
      FirstRun(r);
      var b, rest := r[0], r[1..];
      RunsApart(b, s, n);
      if b.start + b.count == s {
        FreeBehind(r, s, n);
      } else if b.start == s + n {
        FromHigher(rest, b.start + b.count + 1, s + n + b.count + 1);
        ConsCanonical(Run(s, n + b.count), rest);
        SpanCut(s, n + b.count, n);
      } else if b.start > s + n {
        AllFrom(r, s + n + 1);
        ConsCanonical(Run(s, n), r);
      } else {
        FreePages(rest, s, n);
        ConsCanonical(b, FreeRuns(rest, s, n));
      }
    }
  }

  lemma EmptyRuns(s: Page)
    ensures Canonical([]) && forall low :: StartsFrom([], low)
    ensures PagesOf([]) == {}
  {
  }

  lemma RunsApart(b: Run, s: Page, n: nat)
    requires n > 0 && b.count > 0 && Span(b.start, b.count) !! Span(s, n)
    ensures b.start >= s + n || b.start + b.count <= s
  {
    assert InRun(b.start, b.start, b.count) && InRun(s, s, n);
    assert b.start in Span(b.start, b.count) && s in Span(s, n);
  }

  lemma AllFrom(r: seq<Run>, low: int)
    requires Canonical(r) && r != [] && low <= r[0].start
    ensures StartsFrom(r, low)
  {
    forall i | 0 <= i < |r| ensures r[i].start >= low {
      if i > 0 { assert r[0].start + r[0].count < r[i].start; }
    }
  }

  /** The freed pages start where the first run ends. */
  lemma FreeBehind(r: seq<Run>, s: Page, n: nat)
    requires Canonical(r) && r != [] && n > 0 && Span(s, n) !! PagesOf(r) && r[0].start + r[0].count == s
    ensures var r' := FreeRuns(r, s, n);
            && Canonical(r') && PagesOf(r') == PagesOf(r) + Span(s, n)
            && (forall low {:trigger StartsFrom(r', low)} :: StartsFrom(r, low) ==> StartsFrom(r', low))
  {
    hide Canonical, StartsFrom, PagesOf, Span;
    FirstRun(r);
    var b, rest := r[0], r[1..];
    SpanCut(b.start, b.count + n, b.count);
    if rest == [] {
      EmptyRuns(s);
      ConsCanonical(Run(b.start, b.count + n), rest);
    } else {
      FirstRun(rest);
      RunsApart(rest[0], s, n);
      FromFirst(rest, s + 1);
      if s + n == rest[0].start {
        assert r[2..] == rest[1..];
        ConsCanonical(Run(b.start, b.count + n + rest[0].count), rest[1..]);
        SpanCut(b.start, b.count + n + rest[0].count, b.count + n);
      } else {
        AllFrom(rest, s + n + 1);
        ConsCanonical(Run(b.start, b.count + n), rest);
      }
    }
  }

  lemma FromFirst(r: seq<Run>, low: int)
    requires StartsFrom(r, low) && r != []
    ensures r[0].start >= low
  {
  }

  // ---- What follows from canonical form ----

  /** Frees commute. */
  lemma FreesCommute(r: seq<Run>, s: Page, n: nat, t: Page, m: nat)
    requires Canonical(r) && n > 0 && m > 0
    requires Span(s, n) !! PagesOf(r) && Span(t, m) !! PagesOf(r) && Span(s, n) !! Span(t, m)
    ensures FreeRuns(FreeRuns(r, s, n), t, m) == FreeRuns(FreeRuns(r, t, m), s, n)
  {
    hide Canonical, PagesOf, Span, StartsFrom;
    FreePages(r, s, n);
    FreePages(r, t, m);
    FreePages(FreeRuns(r, s, n), t, m);
    FreePages(FreeRuns(r, t, m), s, n);
    CanonicalForm(FreeRuns(FreeRuns(r, s, n), t, m), FreeRuns(FreeRuns(r, t, m), s, n));
  }

  /** Freeing an allocation restores the earlier list exactly. */
  lemma FreeUndoesAlloc(r: seq<Run>, n: nat)
    requires Canonical(r) && n > 0 && AllocRuns(r, n).1.Some?
    ensures FreeRuns(AllocRuns(r, n).0, AllocRuns(r, n).1.value, n) == r
  {
    hide Canonical, PagesOf, Span, StartsFrom, AllocRuns;
    var (r', p) := AllocRuns(r, n);
    AllocPages(r, n);
    FreePages(r', p.value, n);
    CanonicalForm(FreeRuns(r', p.value, n), r);
  }

  // ---- Runs of the allocator ----

  datatype Call = AllocCall(n: nat) | FreeCall(s: Page, n: nat)

  /** The free list and the allocated stretches, each with its length. */
  datatype Pool = Pool(free: seq<Run>, owned: map<Page, nat>)

  ghost function OwnedPages(owned: map<Page, nat>): set<Page> {
    set s, p | s in owned && p in Span(s, owned[s]) :: p
  }

  /** Every page of the pool is free or in exactly one allocated stretch. */
  ghost predicate Inv(pool: Pool, all: set<Page>) {
    && Canonical(pool.free)
    && PagesOf(pool.free) + OwnedPages(pool.owned) == all && PagesOf(pool.free) !! OwnedPages(pool.owned)
    && Apart(pool.owned)
  }

  /** What the code asserts of a stretch passed to `rt_page_free`. */
  predicate Legal(pool: Pool, call: Call) {
    call.FreeCall? ==> call.s in pool.owned && pool.owned[call.s] == call.n
  }

  function Step(pool: Pool, call: Call): Pool {
    match call
    case AllocCall(n) =>
      if n == 0 then pool
      else
        var (free, p) := AllocRuns(pool.free, n);
        Pool(free, if p.Some? then pool.owned[p.value := n] else pool.owned)
    case FreeCall(s, n) => Pool(FreeRuns(pool.free, s, n), pool.owned - {s})
  }

  /** Allocated stretches are not empty and do not overlap. */
  ghost predicate Apart(owned: map<Page, nat>) {
    && (forall s :: s in owned ==> owned[s] > 0)
    && (forall s, t :: s in owned && t in owned && s != t ==> Span(s, owned[s]) !! Span(t, owned[t]))
  }

  lemma StartOwned(owned: map<Page, nat>, s: Page, n: nat)
    requires n > 0
    ensures s in Span(s, n)
    ensures s in owned && owned[s] > 0 ==> s in OwnedPages(owned)
  {
    assert InRun(s, s, n) && (s in owned && owned[s] > 0 ==> InRun(s, s, owned[s]));
    if s in owned && owned[s] > 0 { assert s in Span(s, owned[s]); }
  }

  lemma OwnedAdd(owned: map<Page, nat>, s: Page, n: nat)
    requires Apart(owned) && s !in owned && n > 0 && Span(s, n) !! OwnedPages(owned)
    ensures Apart(owned[s := n]) && OwnedPages(owned[s := n]) == OwnedPages(owned) + Span(s, n)
  {
    hide Span;
    var owned' := owned[s := n];
    forall p ensures p in OwnedPages(owned') <==> p in OwnedPages(owned) || p in Span(s, n) {
      if p in OwnedPages(owned) {
        var t :| t in owned && p in Span(t, owned[t]);
        assert t in owned' && p in Span(t, owned'[t]);
      }
      if p in Span(s, n) { assert s in owned' && p in Span(s, owned'[s]); }
    }
  }

  lemma OwnedRemove(owned: map<Page, nat>, s: Page)
    requires Apart(owned) && s in owned
    ensures Apart(owned - {s}) && OwnedPages(owned) == OwnedPages(owned - {s}) + Span(s, owned[s])
    ensures OwnedPages(owned - {s}) !! Span(s, owned[s])
  {
    hide Span;
    var owned' := owned - {s};
    forall p ensures p in OwnedPages(owned) <==> p in OwnedPages(owned') || p in Span(s, owned[s]) {
      if p in OwnedPages(owned) {
        var t :| t in owned && p in Span(t, owned[t]);
        if t != s { assert t in owned' && p in Span(t, owned'[t]); }
      }
    }
  }

  /** Free and allocated pages are conserved, and no page is handed out twice. */
  lemma StepKeepsInv(pool: Pool, all: set<Page>, call: Call)
    requires Inv(pool, all) && Legal(pool, call)
    ensures Inv(Step(pool, call), all)
  {
    hide Canonical, PagesOf, Span, OwnedPages, AllocRuns, FreeRuns, Apart;
    match call
    case AllocCall(n) =>
      if n > 0 {
        AllocPages(pool.free, n);
        var (free, p) := AllocRuns(pool.free, n);
        if p.Some? {
          StartOwned(pool.owned, p.value, n);
          NotEmpty(pool.owned, p.value);
          OwnedAdd(pool.owned, p.value, n);
        }
      }
    case FreeCall(s, n) =>
      NotEmpty(pool.owned, s);
      OwnedRemove(pool.owned, s);
      FreePages(pool.free, s, n);
  }

  lemma NotEmpty(owned: map<Page, nat>, s: Page)
    requires Apart(owned)
    ensures s in owned ==> owned[s] > 0
  {
  }

  function RunCalls(pool: Pool, calls: seq<Call>): Pool
    decreases |calls|
  {
    if calls == [] then pool else RunCalls(Step(pool, calls[0]), calls[1..])
  }

  ghost predicate LegalRun(pool: Pool, calls: seq<Call>)
    decreases |calls|
  {
    calls == [] || (Legal(pool, calls[0]) && LegalRun(Step(pool, calls[0]), calls[1..]))
  }

  lemma {:induction false} AnyRun(pool: Pool, all: set<Page>, calls: seq<Call>)
    requires Inv(pool, all) && LegalRun(pool, calls)
    ensures Inv(RunCalls(pool, calls), all)
    decreases |calls|
  {
    hide Inv, Legal, Step;
    if calls != [] {
      StepKeepsInv(pool, all, calls[0]);
      AnyRun(Step(pool, calls[0]), all, calls[1..]);
    }
  }

  /** Once everything is freed again, the list is the single run `rt_page_init` made, whatever happened before. */
  lemma BackToOneRun(pool: Pool, start: Page, n: nat)
    requires Inv(pool, Span(start, n)) && n > 0 && pool.owned == map[]
    ensures pool.free == [Run(start, n)]
  {
    var one := [Run(start, n)];
    assert one[1..] == [];
    assert OwnedPages(pool.owned) == {};
    assert PagesOf(one) == Span(start, n);
    CanonicalForm(pool.free, one);
  }

  /** The allocator in place: the list of runs is edited at the position its loop stops at. */
  class PageList {
    var runs: seq<Run>

    /** `rt_page_init`. */
    constructor (start: Page, n: nat)
      requires n > 0
      ensures runs == [Run(start, n)] && Canonical(runs)
    {
      runs := [Run(start, n)];
    }

    /** `rt_page_alloc`. */
    method PageAlloc(n: nat) returns (p: Option<Page>)
      requires Canonical(runs)
      modifies this
      ensures Canonical(runs)
      ensures n == 0 ==> p == None && runs == old(runs)
      ensures n > 0 ==> (runs, p) == AllocRuns(old(runs), n)
    {
      hide Canonical, AllocRuns;
      if n == 0 { return None; }
      AllocCanonical(runs, n);
      var i := 0;
      assert runs[i..] == runs;
      while i < |runs| && runs[i].count < n
        invariant 0 <= i <= |runs| && runs == old(runs)
        invariant AllocRuns(runs, n).0 == runs[..i] + AllocRuns(runs[i..], n).0
        invariant AllocRuns(runs, n).1 == AllocRuns(runs[i..], n).1
      {
        AllocStep(runs, i, n);
        i := i + 1;
      }
      AllocHere(runs, i, n);
      if i == |runs| {
        p := None;
      } else {
        var b := runs[i];
        p := Some(b.start);
        if b.count > n {
          runs := runs[..i] + ([Run(b.start + n, b.count - n)] + runs[i + 1..]);
        } else {
          runs := runs[..i] + runs[i + 1..];
        }
      }
    }

    /** `rt_page_free`. */
    method PageFree(s: Page, n: nat)
      requires Canonical(runs) && n > 0 && Span(s, n) !! PagesOf(runs)
      modifies this
      ensures Canonical(runs) && runs == FreeRuns(old(runs), s, n)
      ensures PagesOf(runs) == old(PagesOf(runs)) + Span(s, n)
    {
      hide Canonical, PagesOf, Span;
      FreePages(runs, s, n);
      var i := 0;
      while i < |runs| && runs[i].start + runs[i].count != s && runs[i].start < s + n
        invariant 0 <= i <= |runs| && runs == old(runs)
        invariant FreeRuns(runs, s, n) == runs[..i] + FreeRuns(runs[i..], s, n)
      {
        FreeStep(runs, i, s, n);
        i := i + 1;
      }
      ghost var rest := runs[i..];
      if i == |runs| {
        runs := runs[..i] + [Run(s, n)];
      } else {
        var b := runs[i];
        assert rest[0] == b && rest[1..] == runs[i + 1..];
        if b.start + b.count == s {
          if i + 1 < |runs| && b.start + (b.count + n) == runs[i + 1].start {
            assert rest[2..] == runs[i + 2..] && rest[1] == runs[i + 1];
            runs := runs[..i] + ([Run(b.start, b.count + n + runs[i + 1].count)] + runs[i + 2..]);
          } else {
            runs := runs[..i] + ([Run(b.start, b.count + n)] + runs[i + 1..]);
          }
        } else if b.start == s + n {
          runs := runs[..i] + ([Run(s, b.count + n)] + runs[i + 1..]);
        } else {
          runs := runs[..i] + ([Run(s, n)] + runs[i..]);
        }
      }
    }
  }

  lemma AllocHere(r: seq<Run>, i: nat, n: nat)
    requires i <= |r| && (i < |r| ==> r[i].count >= n)
    ensures i == |r| ==> r[..i] + AllocRuns(r[i..], n).0 == r && AllocRuns(r[i..], n).1 == None
    ensures i < |r| ==> AllocRuns(r[i..], n).1 == Some(r[i].start)
    ensures i < |r| ==>
      AllocRuns(r[i..], n).0
      == if r[i].count > n then [Run(r[i].start + n, r[i].count - n)] + r[i + 1..] else r[i + 1..]
  {
    if i < |r| { assert r[i..][0] == r[i] && r[i..][1..] == r[i + 1..]; }
  }

  lemma AllocStep(r: seq<Run>, i: nat, n: nat)
    requires i < |r| && r[i].count < n
    ensures r[..i] + AllocRuns(r[i..], n).0 == r[..i + 1] + AllocRuns(r[i + 1..], n).0
    ensures AllocRuns(r[i..], n).1 == AllocRuns(r[i + 1..], n).1
  {
    assert r[i..][0] == r[i] && r[i..][1..] == r[i + 1..];
    assert r[..i + 1] == r[..i] + [r[i]];
  }

  lemma FreeStep(r: seq<Run>, i: nat, s: Page, n: nat)
    requires i < |r| && r[i].start + r[i].count != s && r[i].start < s + n
    ensures r[..i] + FreeRuns(r[i..], s, n) == r[..i + 1] + FreeRuns(r[i + 1..], s, n)
  {
    assert r[i..][0] == r[i] && r[i..][1..] == r[i + 1..];
    assert r[..i + 1] == r[..i] + [r[i]];
  }
}
