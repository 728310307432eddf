/**
 What expressions mean on a machine with a 32-bit `long`: signed arithmetic, memory cells and pointers, in terms that
 do not mention how they are compiled or run.
 */
module FinshMeaning {
  import opened Common
  import opened FinshTree
  import opened FinshVm
  import opened FinshCorrect
  import opened FinshLong
  import Ffs

  type Sys = (Word, seq<Word>, Mem) -> (Word, Mem)

  /** Memory with `v` in the four bytes at `a`, and every other byte as before. */
  ghost predicate Written(m: Mem, m': Mem, a: Word, v: Word) {
    && LoadDword(m', a) == Some(v) && m'.Keys == m.Keys
    && forall x :: x in m && !(a <= x < a + 4) ==> m'[x] == m[x]
  }

  lemma Stored(m: Mem, a: Word, v: Word)
    requires LoadDword(m, a).Some?
    ensures StoreDword(m, a, v).Some? && Written(m, StoreDword(m, a, v).value, a, v)
  {
    StoreOnly(m, a, v);
    LoadAfterStore(m, a, v);
    hide LoadDword;
  }

  lemma Fails(m: Mem, a: Word, v: Word)
    ensures StoreDword(m, a, v).None? <==> LoadDword(m, a).None?
  {
  }

  /** An assignment yields the value of its right-hand side and leaves it in the variable; nothing else is written. */
  lemma Assigns(t: Target, x: Variable, e: Expr, m: Mem)
    ensures match Eval(t, e, m)
            case None => Eval(t, AssignVar(x, e), m).None?
            case Some((v, m1)) =>
              (Eval(t, AssignVar(x, e), m).Some? <==> LoadDword(m1, x.addr).Some?)
              && (LoadDword(m1, x.addr).Some? ==>
                    var (w, m2) := Eval(t, AssignVar(x, e), m).value; w == v && Written(m1, m2, x.addr, v))
  {
    hide StoreDword, LoadDword, Written;
    match Eval(t, e, m) {
      case None =>
      case Some((v, m1)) =>
        Fails(m1, x.addr, v);
        if LoadDword(m1, x.addr).Some? { Stored(m1, x.addr, v); }
    }
  }

  /** `*&x` is `x`, `*&x = e` is `x = e`, and `&*e` is `e`. */
  lemma Pointers(t: Target, x: Variable, e: Expr, m: Mem)
    ensures Eval(t, Deref(AddressOf(x)), m) == Eval(t, Var(x), m)
    ensures Eval(t, AssignAt(AddressOf(x), e), m) == Eval(t, AssignVar(x, e), m)
    ensures Eval(t, AddressAt(e), m) == Eval(t, e, m)
    ensures Eval(t, Var(x), m) == match LoadDword(m, x.addr) case None => None case Some(v) => Some((v, m))
  {
    hide LoadDword, StoreDword;
  }

  lemma OneLess(v: Word)
    ensures var n: int := v;
            LongAlu(Add, v, 1) == Some((n + 1) % Modulus) && LongAlu(Sub, v, 1) == Some((n - 1) % Modulus)
  {
    AddUndoesSub(v, 1);
  }

  lemma Bumped(t: Target, inc: bool, x: Variable, m: Mem, v: Word, w: Word)
    requires LoadDword(m, x.addr) == Some(v) && t.alu(StepOp(inc), v, 1) == Some(w)
    requires StoreDword(m, x.addr, w).Some?
    ensures var m' := StoreDword(m, x.addr, w).value;
            Eval(t, PreStep(inc, x), m) == Some((w, m')) && Eval(t, PostStep(inc, x), m) == Some((v, m'))
  {
    hide StoreDword, LoadDword;
  }

  /** `++x` and `--x` yield the new value, `x++` and `x--` the old one; all leave the new one, modulo 2^32, in `x`. */
  lemma StepsByOne(sys: Sys, inc: bool, x: Variable, m: Mem)
    ensures var t := Target(LongAlu, sys);
            match LoadDword(m, x.addr)
            case None => Eval(t, PreStep(inc, x), m).None? && Eval(t, PostStep(inc, x), m).None?
            case Some(v) =>
              var n: int := v;
              var w := (if inc then n + 1 else n - 1) % Modulus;
              exists m' :: Written(m, m', x.addr, w)
                           && Eval(t, PreStep(inc, x), m) == Some((w, m'))
                           && Eval(t, PostStep(inc, x), m) == Some((v, m'))
  {
    hide StoreDword, LoadDword, Written, LongAlu;
    match LoadDword(m, x.addr) {
      case None =>
      case Some(v) =>
        OneLess(v);
        var n: int := v;
        var w := (if inc then n + 1 else n - 1) % Modulus;
        Stored(m, x.addr, w);
        var m' := StoreDword(m, x.addr, w).value;
        Bumped(Target(LongAlu, sys), inc, x, m, v, w);
        assert Written(m, m', x.addr, w);
    }
  }

  /** Both operands are evaluated, the left one first, and combined in this order as signed numbers. */
  lemma Operators(sys: Sys, op: BinOp, left: Expr, right: Expr, m: Mem, a: Word, m1: Mem, b: Word, m2: Mem)
    requires var t := Target(LongAlu, sys); Eval(t, left, m) == Some((a, m1)) && Eval(t, right, m1) == Some((b, m2))
    ensures var r := Eval(Target(LongAlu, sys), Bin(op, left, right), m); var x, y := Signed(a), Signed(b);
            && (r.None? <==> ((op.Div? || op.Mod?) && b == 0) || ((op.Shl? || op.Shr?) && b >= 32))
            && (r.Some? ==> r.value.1 == m2)
            && (op.Add? && -0x8000_0000 <= x + y < 0x8000_0000 ==> Signed(r.value.0) == x + y)
            && (op.Sub? && -0x8000_0000 <= x - y < 0x8000_0000 ==> Signed(r.value.0) == x - y)
            && (op.Mul? && -0x8000_0000 <= x * y < 0x8000_0000 ==> Signed(r.value.0) == x * y)
            && (op.Div? && b != 0 && !(a == 0x8000_0000 && b == 0xffff_ffff) ==>
                  Abs(Signed(r.value.0) * y - x) < Abs(y) && Abs(Signed(r.value.0) * y) <= Abs(x))
  {
    hide LongAlu, Signed, Abs;
    Defined(op, a, b);
    if op.Add? || op.Sub? || op.Mul? { Arithmetic(op, a, b); }
    if op.Div? && b != 0 && !(a == 0x8000_0000 && b == 0xffff_ffff) {
      DivMod(a, b);
      Defined(Mod, a, b);
      Truncated(Signed(a), Signed(b), Signed(LongAlu(Div, a, b).value), Signed(LongAlu(Mod, a, b).value));
    }
  }

  lemma Truncated(x: int, y: int, q: int, r: int)
    requires q * y + r == x && Abs(r) < Abs(y) && (r != 0 ==> (r < 0) == (x < 0))
    ensures Abs(q * y - x) < Abs(y) && Abs(q * y) <= Abs(x)
  {
    var p := q * y;
    if Abs(x) < Abs(y) && q != 0 {
      assert Abs(p) >= Abs(y) by { Product(q, y); }
    }
  }

  lemma Product(q: int, y: int)
    requires q != 0
    ensures Abs(q * y) >= Abs(y)
  {
  }

  /** `~` turns every bit. */
  lemma Complements(t: Target, e: Expr, m: Mem, i: nat)
    requires Eval(t, e, m).Some? && i < 32
    ensures var (v, m1) := Eval(t, e, m).value; var r := Eval(t, Not(e), m);
            r.Some? && r.value.1 == m1 && (Ffs.HasBit(r.value.0, i) <==> !Ffs.HasBit(v, i))
  {
    hide Ffs.HasBit;
    Pow2Of32();
    Complement(Eval(t, e, m).value.0, 32, i);
  }

  function Literals(ws: seq<Word>): Args {
    if ws == [] then NoArgs else Arg(Lit(LongLit, ws[0]), Literals(ws[1..]))
  }

  /** A call hands its arguments over in the order in which they are written. */
  lemma {:induction false} InOrder(t: Target, ws: seq<Word>, m: Mem)
    ensures EvalArgs(t, Literals(ws), m) == Some((ws, m))
    decreases |ws|
  {
    if ws != [] {
      InOrder(t, ws[1..], m);
      assert ws == [ws[0]] + ws[1..];
    }
  }

  lemma Calls(t: Target, f: Word, ws: seq<Word>, m: Mem)
    ensures Eval(t, Call(f, Literals(ws)), m) == Some(t.sys(f, ws, m))
  {
    InOrder(t, ws, m);
  }
}
