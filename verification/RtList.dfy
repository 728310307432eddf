/**
 The intrusive circular lists of rtservice.h: `next` and `prev` fields of numbered nodes, and the ring of
 nodes they form. A list head and its members are one ring; an unlinked node is a ring of its own. The rings of
 timers, wait lists and memory blocks are instances; what is proved of one ring leaves all others alone, since
 only the fields of its own nodes change.
 */
module RtList {
  import opened Common
  import opened Waiting

  type Node = nat

  type Fields = map<Node, Node>

  function Get(m: Fields, n: Node): Node {
    if n in m then m[n] else n
  }

  /** The node after position `i`, going round. */
  function After(q: seq<Node>, i: nat): Node
    requires i < |q|
  {
    if i + 1 < |q| then q[i + 1] else q[0]
  }

  predicate LinkedAt(q: seq<Node>, next: Fields, prev: Fields, i: nat)
    requires i < |q|
  {
    Get(next, q[i]) == After(q, i) && Get(prev, After(q, i)) == q[i]
  }

  /** Following `next` from `q[0]` visits exactly `q` and comes back, and `prev` goes the other way round. */
  ghost predicate Ring(q: seq<Node>, next: Fields, prev: Fields) {
    q != [] && NoDup(q) && forall i :: 0 <= i < |q| ==> LinkedAt(q, next, prev, i)
  }

  /** The four assignments of `rt_list_insert_after(q[i], n)` put `n` into the ring behind `q[i]`. */
  lemma InsertRing(q: seq<Node>, next: Fields, prev: Fields, i: nat, n: Node)
    requires Ring(q, next, prev) && i < |q| && n !in q
    ensures Ring(InsertAt(q, i + 1, n), next[n := After(q, i)][q[i] := n], prev[After(q, i) := n][n := q[i]])
  {
    var r, succ := InsertAt(q, i + 1, n), After(q, i);
    var next', prev' := next[n := succ][q[i] := n], prev[succ := n][n := q[i]];
    PutNoDup(q, i + 1, n);
    forall k | 0 <= k < |r| ensures LinkedAt(r, next', prev', k) {
      if k == i || k == i + 1 {
      } else {
        var k' := if k < i then k else k - 1;
        assert LinkedAt(q, next, prev, k');
        assert r[k] == q[k'] && After(r, k) == After(q, k');
        assert q[k'] != n && q[k'] != q[i] && After(q, k') != n;
        AfterOnce(q, k', i);
      }
    }
  }

  lemma AfterOnce(q: seq<Node>, i: nat, k: nat)
    requires NoDup(q) && i < |q| && k < |q| && i != k
    ensures After(q, i) != After(q, k)
  {
  }

  lemma PutNoDup(q: seq<Node>, i: nat, n: Node)
    requires NoDup(q) && i <= |q| && n !in q
    ensures NoDup(InsertAt(q, i, n))
    ensures forall u :: u in InsertAt(q, i, n) <==> u in q || u == n
  {
    assert q == q[..i] + q[i..];
  }

  /** The unlinking assignments of `rt_list_remove(q[i])` close the ring around it. */
  lemma RemoveRing(q: seq<Node>, next: Fields, prev: Fields, i: nat)
    requires Ring(q, next, prev) && 0 < i < |q|
    ensures Get(prev, q[i]) == q[i - 1] && Get(next, q[i]) == After(q, i)
    ensures Ring(DropAt(q, i), next[q[i - 1] := After(q, i)], prev[After(q, i) := q[i - 1]])
    ensures q[i] !in DropAt(q, i)
  {
    var r, succ := DropAt(q, i), After(q, i);
    var next', prev' := next[q[i - 1] := succ], prev[succ := q[i - 1]];
    assert LinkedAt(q, next, prev, i - 1) && LinkedAt(q, next, prev, i);
    forall k | 0 <= k < |r| ensures LinkedAt(r, next', prev', k) {
      if k == i - 1 {
      } else {
        var k' := if k < i then k else k + 1;
        assert LinkedAt(q, next, prev, k');
        assert r[k] == q[k'] && After(r, k) == After(q, k');
        AfterOnce(q, k', i);
      }
    }
  }

  /** A ring whose nodes keep their fields is still a ring. */
  lemma OtherRing(q: seq<Node>, next: Fields, prev: Fields, next': Fields, prev': Fields)
    requires Ring(q, next, prev)
    requires forall u :: u in q ==> Get(next', u) == Get(next, u) && Get(prev', u) == Get(prev, u)
    ensures Ring(q, next', prev')
  {
    forall i | 0 <= i < |q| ensures LinkedAt(q, next', prev', i) {
      assert LinkedAt(q, next, prev, i) && q[i] in q && After(q, i) in q;
    }
  }

  class ListNodes {
    var next: Fields
    var prev: Fields

    /** `rt_list_init`. */
    method Init(l: Node)
      modifies this
      ensures Ring([l], next, prev)
      ensures forall u :: u != l ==> Get(next, u) == Get(old(next), u) && Get(prev, u) == Get(old(prev), u)
    {
      next, prev := next[l := l], prev[l := l];
    }

    /** `rt_list_insert_after`: nodes outside the ring keep their fields. */
    method InsertAfter(l: Node, n: Node, ghost q: seq<Node>, ghost i: nat)
      requires Ring(q, next, prev) && i < |q| && q[i] == l && n !in q
      modifies this
      ensures Ring(InsertAt(q, i + 1, n), next, prev)
      ensures forall u :: u !in q && u != n ==> Get(next, u) == Get(old(next), u) && Get(prev, u) == Get(old(prev), u)
    {
      InsertRing(q, next, prev, i, n);
      assert LinkedAt(q, next, prev, i);
      prev := prev[Get(next, l) := n];
      next := next[n := Get(next, l)];
      next := next[l := n];
      prev := prev[n := l];
    }

    /** `rt_list_insert_before`: before the head means at the end of its list. */
    method InsertBefore(l: Node, n: Node, ghost q: seq<Node>, ghost i: nat)
      requires Ring(q, next, prev) && i < |q| && q[i] == l && n !in q
      modifies this
      ensures Ring(InsertAt(q, if i == 0 then |q| else i, n), next, prev)
      ensures forall u :: u !in q && u != n ==> Get(next, u) == Get(old(next), u) && Get(prev, u) == Get(old(prev), u)
    {
      ghost var k := if i == 0 then |q| - 1 else i - 1;
      InsertRing(q, next, prev, k, n);
      assert LinkedAt(q, next, prev, k) && After(q, k) == l;
      ghost var next', prev' := next[n := l][q[k] := n], prev[l := n][n := q[k]];
      next := next[Get(prev, l) := n];
      prev := prev[n := Get(prev, l)];
      prev := prev[l := n];
      next := next[n := l];
      assert next == next' && prev == prev';
    }

    /** `rt_list_remove` of a member: it leaves the ring and becomes a ring of its own. */
    method Remove(n: Node, ghost q: seq<Node>, ghost i: nat)
      requires Ring(q, next, prev) && 0 < i < |q| && q[i] == n
      modifies this
      ensures Ring(DropAt(q, i), next, prev) && Ring([n], next, prev)
      ensures forall u :: u !in q ==> Get(next, u) == Get(old(next), u) && Get(prev, u) == Get(old(prev), u)
    {
      RemoveRing(q, next, prev, i);
      prev := prev[Get(next, n) := Get(prev, n)];
      next := next[Get(prev, n) := Get(next, n)];
      ghost var next0, prev0 := next, prev;
      next, prev := next[n := n], prev[n := n];
      OtherRing(DropAt(q, i), next0, prev0, next, prev);
    }

    /** `rt_list_remove` of an unlinked node changes nothing that can be seen. */
    method RemoveUnlinked(n: Node)
      requires Ring([n], next, prev)
      modifies this
      ensures Ring([n], next, prev)
      ensures forall u :: Get(next, u) == Get(old(next), u) && Get(prev, u) == Get(old(prev), u)
    {
      assert LinkedAt([n], next, prev, 0);
      prev := prev[Get(next, n) := Get(prev, n)];
      next := next[Get(prev, n) := Get(next, n)];
      next, prev := next[n := n], prev[n := n];
    }

    /** `rt_list_isempty`. */
    method IsEmpty(l: Node, ghost q: seq<Node>) returns (r: bool)
      requires Ring(q, next, prev) && q[0] == l
      ensures r <==> q == [l]
    {
      assert LinkedAt(q, next, prev, 0);
      r := Get(next, l) == l;
    }
  }
}
