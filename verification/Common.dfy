/** Types shared by every model in this project. */
module Common {

  datatype Option<+T> = None | Some(value: T)

  /** The error codes of rtdef.h, as the kernel calls return them. */
  datatype Err = EOK | ERROR | ETIMEOUT | EFULL

  function Max(a: int, b: int): int {
    if a < b then b else a
  }

  function Min(a: int, b: int): int {
    if a < b then a else b
  }

  function Pow2(n: nat): (p: nat)
    ensures p > 0
  {
    if n == 0 then 1 else 2 * Pow2(n - 1)
  }

  lemma AtLeast(k: int, n: int)
    requires k >= 1 && n >= 1
    ensures k * n >= n
  {
  }

  /** Quotient and remainder are determined by the size of the remainder. */
  lemma Division(x: int, q: int, r: int, n: int)
    requires x == q * n + r && 0 <= r < n
    ensures x / n == q && x % n == r
  {
    var d, e := x / n, x % n;
    assert x == d * n + e && e < n;
    assert (q - d) * n == q * n - d * n && (d - q) * n == d * n - q * n;
    if d < q { AtLeast(q - d, n); }
    if q < d { AtLeast(d - q, n); }
  }

  ghost predicate NoDup(q: seq<nat>) {
    forall i, j :: 0 <= i < j < |q| ==> q[i] != q[j]
  }

  /** The remaining wait after `elapsed` ticks, in 32-bit arithmetic, not below zero. */
  function Remaining(timeout: int, elapsed: nat): int {
    if timeout <= 0 then timeout else
      var d := (timeout - elapsed) % 0x1_0000_0000;
      if d < 0x8000_0000 then d else 0
  }

  lemma {:induction false} SubsetSize<T>(a: set<T>, b: set<T>)
    requires a <= b
    ensures |a| <= |b|
    decreases a
  {
    if a != {} {
      var x :| x in a;
      SubsetSize(a - {x}, b - {x});
    }
  }

  lemma ConsAssoc<T>(x: T, a: seq<T>, b: seq<T>)
    ensures ([x] + a) + b == [x] + (a + b)
  {
  }

  lemma TailOfJoin<T>(a: seq<T>, b: seq<T>)
    requires a != []
    ensures (a + b)[0] == a[0] && (a + b)[1..] == a[1..] + b
  {
  }

  /** `s` with `x` put in front of position `i`. */
  function InsertAt<T>(s: seq<T>, i: nat, x: T): (r: seq<T>)
    requires i <= |s|
    ensures |r| == |s| + 1 && r[i] == x
    ensures forall k :: 0 <= k < i ==> r[k] == s[k]
    ensures forall k :: i < k < |r| ==> r[k] == s[k - 1]
  {
    s[..i] + [x] + s[i..]
  }

  /** `s` without position `i`. */
  function DropAt<T>(s: seq<T>, i: nat): (r: seq<T>)
    requires i < |s|
    ensures |r| == |s| - 1
    ensures forall k :: 0 <= k < i ==> r[k] == s[k]
    ensures forall k :: i <= k < |r| ==> r[k] == s[k + 1]
  {
    s[..i] + s[i + 1..]
  }
}
