/**
 C's operators on a 32-bit `long`, as one arithmetic that the machine may have: results wrap around, division
 and remainder truncate toward zero and fail where C leaves them undefined, and the bitwise operators work bit by
 bit. The compiler's correctness does not depend on any of this, as it is proved for every arithmetic of the
 machine.
 */
module FinshLong {
  import opened Common
  import opened FinshTree
  import opened FinshVm
  import Ffs

  const Modulus: int := 0x1_0000_0000

  function Signed(a: Word): int {
    if a < 0x8000_0000 then a else a - Modulus
  }

  function Wrap(x: int): Word {
    x % Modulus
  }

  /** C division truncates toward zero. */
  function Quot(x: int, y: int): int
    requires y != 0
  {
    if (x < 0) == (y < 0) then Abs(x) / Abs(y) else -(Abs(x) / Abs(y))
  }

  function Rem(x: int, y: int): int
    requires y != 0
  {
    x - Quot(x, y) * y
  }

  function Abs(x: int): nat { if x < 0 then -x else x }

  /** A bitwise operator, bit by bit from the least significant end. */
  function Bitwise(f: (bool, bool) -> bool, a: nat, b: nat, width: nat): (r: nat)
    ensures r < Pow2(width)
  {
    if width == 0 then 0
    else (if f(a % 2 == 1, b % 2 == 1) then 1 else 0) + 2 * Bitwise(f, a / 2, b / 2, width - 1)
  }

  lemma Pow2Of32()
    ensures Pow2(32) == Modulus
  {
    assert Pow2(4) == 0x10 && Pow2(8) == 0x100 && Pow2(12) == 0x1000 && Pow2(16) == 0x1_0000;
    assert Pow2(20) == 0x10_0000 && Pow2(24) == 0x100_0000 && Pow2(28) == 0x1000_0000;
  }

  function Bits(f: (bool, bool) -> bool, a: Word, b: Word): Word {
    Pow2Of32();
    Bitwise(f, a, b, 32)
  }

  /** Undefined shifts and a zero divisor give None; overflow wraps. */
  function LongAlu(op: BinOp, a: Word, b: Word): Option<Word> {
    var x, y := Signed(a), Signed(b);
    match op
    case Add => Some(Wrap(x + y))
    case Sub => Some(Wrap(x - y))
    case Mul => Some(Wrap(x * y))
    case Div => if y == 0 then None else Some(Wrap(Quot(x, y)))
    case Mod => if y == 0 then None else Some(Wrap(Rem(x, y)))
    case And => Some(Bits((p, q) => p && q, a, b))
    case Or => Some(Bits((p, q) => p || q, a, b))
    case Xor => Some(Bits((p, q) => p != q, a, b))
    case Shl => if 0 <= y < 32 then Some(Wrap(x * Pow2(y))) else None
    case Shr => if 0 <= y < 32 then Some(Wrap(x / Pow2(y))) else None
  }

  lemma WrapSigned(x: int)
    requires -0x8000_0000 <= x < 0x8000_0000
    ensures Signed(Wrap(x)) == x
  {
  }

  lemma MulSmall(k: nat, d: nat)
    requires d > 0
    ensures k <= k * d && (d > 1 ==> 2 * k <= k * d)
  {
  }

  lemma Euclid(n: nat, d: nat) returns (k: nat, r: nat)
    requires d > 0
    ensures k == n / d && r == n - k * d && 0 <= r < d && k <= n && (d > 1 ==> 2 * k <= n)
  {
    k, r := n / d, n % d;
    MulSmall(k, d);
  }

  lemma NegMul(k: int, d: int)
    ensures (-k) * d == -(k * d) && k * (-d) == -(k * d) && (-k) * (-d) == k * d
  {
  }

  lemma QuotRem(x: int, y: int)
    requires y != 0
    ensures Quot(x, y) * y + Rem(x, y) == x && Abs(Rem(x, y)) < Abs(y)
            && (Rem(x, y) != 0 ==> (Rem(x, y) < 0) == (x < 0))
    ensures Abs(Quot(x, y)) <= Abs(x) && (Abs(y) > 1 ==> 2 * Abs(Quot(x, y)) <= Abs(x))
  {
    var k, r := Euclid(Abs(x), Abs(y));
    NegMul(k, Abs(y));
    assert Quot(x, y) == if (x < 0) == (y < 0) then k else -k;
    assert Quot(x, y) * y == if x < 0 then -(k * Abs(y)) else k * Abs(y);
  }

  /** The shell's `/` and `%`: quotient times divisor plus remainder is the dividend, and the remainder is small. */
  lemma DivMod(a: Word, b: Word)
    requires b != 0 && !(a == 0x8000_0000 && b == 0xffff_ffff)
    ensures var q, r := Signed(LongAlu(Div, a, b).value), Signed(LongAlu(Mod, a, b).value);
            q * Signed(b) + r == Signed(a) && Abs(r) < Abs(Signed(b)) && (r != 0 ==> (r < 0) == (Signed(a) < 0))
  {
    var x, y := Signed(a), Signed(b);
    QuotRem(x, y);
    hide Quot, Rem;
    WrapSigned(Quot(x, y));
    WrapSigned(Rem(x, y));
  }

  /** Only division by zero and shifts by 32 or more have no result. */
  lemma Defined(op: BinOp, a: Word, b: Word)
    ensures LongAlu(op, a, b).None? <==> ((op.Div? || op.Mod?) && b == 0) || ((op.Shl? || op.Shr?) && b >= 32)
  {
  }

  /** Without overflow a sum, difference or product is the one of the signed numbers. */
  lemma Arithmetic(op: BinOp, a: Word, b: Word)
    requires op.Add? || op.Sub? || op.Mul?
    ensures var x, y := Signed(a), Signed(b);
            var r := if op.Add? then x + y else if op.Sub? then x - y else x * y;
            -0x8000_0000 <= r < 0x8000_0000 ==> Signed(LongAlu(op, a, b).value) == r
  {
    var x, y := Signed(a), Signed(b);
    var r := if op.Add? then x + y else if op.Sub? then x - y else x * y;
    if -0x8000_0000 <= r < 0x8000_0000 { WrapSigned(r); }
  }

  /** With overflow too, adding undoes subtracting. */
  lemma AddUndoesSub(a: Word, b: Word)
    ensures LongAlu(Add, LongAlu(Sub, a, b).value, b) == Some(a)
    ensures var x: int, y: int := a, b; LongAlu(Add, a, b) == Some((x + y) % Modulus)
  {
    var x: int, y: int := a, b;
    SignedWord(a);
    SignedWord(b);
    WrapSame(Signed(a) + Signed(b), x + y);
    var d := LongAlu(Sub, a, b).value;
    SignedWord(d);
    WrapSame(Signed(d) + Signed(b), x);
  }

  lemma SignedWord(a: Word)
    ensures Signed(a) == a || Signed(a) == a - Modulus
  {
  }

  /** Numbers a few times the modulus apart wrap to the same word. */
  lemma WrapSame(x: int, y: int)
    requires x == y || x == y - Modulus || x == y - 2 * Modulus || x == y + Modulus || x == y + 2 * Modulus
    ensures Wrap(x) == Wrap(y)
  {
  }

  lemma {:induction false} BitwiseBit(f: (bool, bool) -> bool, a: nat, b: nat, width: nat, i: nat)
    requires i < width
    ensures Ffs.HasBit(Bitwise(f, a, b, width), i) <==> f(Ffs.HasBit(a, i), Ffs.HasBit(b, i))
  {
    var rest := Bitwise(f, a / 2, b / 2, width - 1);
    assert Bitwise(f, a, b, width) / 2 == rest;
    if i > 0 { BitwiseBit(f, a / 2, b / 2, width - 1, i - 1); }
  }

  /** `&`, `|` and `^`, bit by bit. */
  lemma BitOperators(a: Word, b: Word, i: nat)
    requires i < 32
    ensures Ffs.HasBit(LongAlu(And, a, b).value, i) <==> Ffs.HasBit(a, i) && Ffs.HasBit(b, i)
    ensures Ffs.HasBit(LongAlu(Or, a, b).value, i) <==> Ffs.HasBit(a, i) || Ffs.HasBit(b, i)
    ensures Ffs.HasBit(LongAlu(Xor, a, b).value, i) <==> Ffs.HasBit(a, i) != Ffs.HasBit(b, i)
  {
    hide Bitwise, Ffs.HasBit;
    BitwiseBit((p, q) => p && q, a, b, 32, i);
    BitwiseBit((p, q) => p || q, a, b, 32, i);
    BitwiseBit((p, q) => p != q, a, b, 32, i);
  }

  /** `~`, as the machine computes it. */
  lemma {:induction false} Complement(v: nat, width: nat, i: nat)
    requires v < Pow2(width) && i < width
    ensures Ffs.HasBit(Pow2(width) - 1 - v, i) <==> !Ffs.HasBit(v, i)
  {
    var c := Pow2(width) - 1 - v;
    assert c / 2 == Pow2(width - 1) - 1 - v / 2 && c % 2 == 1 - v % 2;
    if i > 0 { Complement(v / 2, width - 1, i - 1); }
  }

  /** A shift to the left multiplies; one to the right divides, rounding down, and keeps the sign. */
  lemma Shifts(a: Word, b: Word)
    requires b < 32
    ensures var x: int := a; LongAlu(Shl, a, b) == Some((x * Pow2(b)) % Modulus)
    ensures var r := Signed(LongAlu(Shr, a, b).value);
            r * Pow2(b) <= Signed(a) < (r + 1) * Pow2(b)
  {
    hide Pow2;
    ShiftedWord(a, Pow2(b));
    Halving(Signed(a), Pow2(b));
    WrapSigned(Signed(a) / Pow2(b));
  }

  lemma ShiftedWord(a: Word, p: int)
    ensures var x: int := a; Wrap(Signed(a) * p) == (x * p) % Modulus
  {
    var x: int := a;
    if x >= 0x8000_0000 {
      assert (x - Modulus) * p == x * p + (-p) * Modulus;
      Unwrap(x * p, -p);
    }
  }

  lemma Unwrap(x: int, k: int)
    ensures (x + k * Modulus) % Modulus == x % Modulus
  {
  }

  lemma Halving(x: int, p: nat)
    requires p > 0 && -0x8000_0000 <= x < 0x8000_0000
    ensures x / p * p <= x < (x / p + 1) * p
    ensures -0x8000_0000 <= x / p < 0x8000_0000
  {
    var q := x / p;
    assert x == q * p + x % p;
    if q > 0 { MulSmall(q, p); }
    if q < 0 {
      MulSmall(-q - 1, p);
      assert (-q - 1) * p == -(q * p) - p;
    }
  }
}
