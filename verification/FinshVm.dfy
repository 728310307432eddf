/**
 The finsh stack machine on values: one instruction, and straight-line execution of byte code.
 C's arithmetic and the system calls are parameters of the machine.
 */
module FinshVm {
  import opened Common
  import opened FinshTree
  import opened FinshCode

  /** Memory by byte address; an address outside the map is a bus fault. */
  type Mem = map<nat, Byte>

  /**
   The target: `alu` is C's arithmetic on `long` (None where C traps, as on division by zero), and
   `sys(f, args, mem)` is the call of the function at address `f`.
   */
  datatype Target = Target(alu: (BinOp, Word, Word) -> Option<Word>,
                           sys: (Word, seq<Word>, Mem) -> (Word, Mem))

  /** `stack` holds the cells below the stack pointer. */
  datatype State = State(stack: seq<Word>, mem: Mem)

  /** The four bytes at `a` exist. */
  predicate Mapped(m: Mem, a: Word) {
    a in m && a + 1 in m && a + 2 in m && a + 3 in m
  }

  function LoadDword(m: Mem, a: Word): Option<Word> {
    if Mapped(m, a) then Some(Word4(m[a], m[a + 1], m[a + 2], m[a + 3])) else None
  }

  function StoreDword(m: Mem, a: Word, v: Word): Option<Mem> {
    var b := Bytes4(v);
    if Mapped(m, a) then Some(m[a := b[0]][a + 1 := b[1]][a + 2 := b[2]][a + 3 := b[3]]) else None
  }

  lemma LoadAfterStore(m: Mem, a: Word, v: Word)
    requires StoreDword(m, a, v).Some?
    ensures LoadDword(StoreDword(m, a, v).value, a) == Some(v)
  {
    DwordRoundTrip(v);
  }

  /** A store changes the four bytes of the word and no others, and fails only if one of them does not exist. */
  lemma StoreOnly(m: Mem, a: Word, v: Word)
    ensures StoreDword(m, a, v).Some? <==> a in m && a + 1 in m && a + 2 in m && a + 3 in m
    ensures StoreDword(m, a, v).Some? ==>
              var m' := StoreDword(m, a, v).value;
              && m'.Keys == m.Keys && (forall x :: x in m && !(a <= x < a + 4) ==> m'[x] == m[x])
              && var b: seq<int> := [m'[a], m'[a + 1], m'[a + 2], m'[a + 3]];
                 v == b[0] + 0x100 * b[1] + 0x1_0000 * b[2] + 0x100_0000 * b[3]
  {
    LittleEndian(v);
    hide Bytes4;
  }

  /** Next(n, s): the instruction took n bytes.  Fault: the machine traps or leaves its stack. */
  datatype StepResult = Next(length: nat, state: State) | Fault | Truncated

  function Push(s: State, n: nat, v: Word): StepResult {
    if |s.stack| >= FINSH_STACK_MAX then Fault else Next(n, s.(stack := s.stack + [v]))
  }

  function Operand(code: seq<Byte>): Word
    requires |code| >= 5
  {
    Word4(code[1], code[2], code[3], code[4])
  }

  /** OP_BIN_DWORD. */
  function StepBin(t: Target, op: BinOp, s: State): StepResult {
    var n := |s.stack|;
    if n < 2 then Fault else
      match t.alu(op, s.stack[n - 2], s.stack[n - 1])
      case None => Fault
      case Some(v) => Next(1, s.(stack := s.stack[..n - 2] + [v]))
  }

  /** OP_st_dword: store below the top, then drop the top; the address stays. */
  function StepStore(s: State): StepResult {
    var n := |s.stack|;
    if n < 2 then Fault else
      match StoreDword(s.mem, s.stack[n - 2], s.stack[n - 1])
      case None => Fault
      case Some(m) => Next(1, State(s.stack[..n - 1], m))
  }

  /** OP_call: pop `count` parameters and the function, push the result; at most 16 parameters. */
  function StepCall(t: Target, count: nat, s: State): StepResult {
    var n := |s.stack|;
    if n < count + 1 || count > 16 then Fault else
      var (r, m) := t.sys(s.stack[n - count - 1], s.stack[n - count..], s.mem);
      Next(2, State(s.stack[..n - count - 1] + [r], m))
  }

  function BinOpOf(op: Byte): Option<BinOp> {
    if op == BinBase(Add) + 2 then Some(Add)
    else if op == BinBase(Sub) + 2 then Some(Sub)
    else if op == BinBase(Mul) + 2 then Some(Mul)
    else if op == BinBase(Div) + 2 then Some(Div)
    else if op == BinBase(Mod) + 2 then Some(Mod)
    else if op == BinBase(And) + 2 then Some(And)
    else if op == BinBase(Or) + 2 then Some(Or)
    else if op == BinBase(Xor) + 2 then Some(Xor)
    else if op == BinBase(Shl) + 2 then Some(Shl)
    else if op == BinBase(Shr) + 2 then Some(Shr)
    else None
  }

  /** One entry of op_table applied to the state.  Byte and word opcodes are not modelled. */
  function Step(t: Target, code: seq<Byte>, s: State): StepResult
    requires |code| > 0
  {
    var op := code[0];
    var n := |s.stack|;
    if op == OP_NOOP then Next(1, s)
    else if BinOpOf(op).Some? then StepBin(t, BinOpOf(op).value, s)
    else if op == OP_BITWISE_DWORD then
      if n < 1 then Fault else Next(1, s.(stack := s.stack[..n - 1] + [0xffff_ffff - s.stack[n - 1]]))
    else if op == OP_LD_DWORD then
      if |code| < 5 then Truncated else Push(s, 5, Operand(code))
    else if op == OP_LD_VALUE_DWORD then
      if |code| < 5 then Truncated
      else match LoadDword(s.mem, Operand(code)) case None => Fault case Some(v) => Push(s, 5, v)
    else if op == OP_LD_VALUE_DWORD_STACK then
      if n < 1 then Fault
      else match LoadDword(s.mem, s.stack[n - 1])
           case None => Fault
           case Some(v) => Next(1, s.(stack := s.stack[..n - 1] + [v]))
    else if op == OP_ST_DWORD then StepStore(s)
    else if op == OP_POP then if n < 1 then Fault else Next(1, s.(stack := s.stack[..n - 1]))
    else if op == OP_SYSCALL then
      if |code| < 2 then Truncated else StepCall(t, code[1], s)
    else Fault
  }

  datatype Outcome = Done(state: State) | Trap | Cut

  /** Straight-line execution of `code` to its end. */
  function Exec(t: Target, code: seq<Byte>, s: State): Outcome {
    if code == [] then Done(s) else
      match Step(t, code, s)
      case Next(n, s') => if 0 < n <= |code| then Exec(t, code[n..], s') else Cut
      case Fault => Trap
      case Truncated => Cut
  }

  lemma StepLocal(t: Target, c1: seq<Byte>, c2: seq<Byte>, s: State)
    requires |c1| > 0 && !Step(t, c1, s).Truncated?
    requires Step(t, c1, s).Next? ==> Step(t, c1, s).length <= |c1|
    ensures Step(t, c1 + c2, s) == Step(t, c1, s)
  {
    var c := c1 + c2;
    assert c[0] == c1[0];
    if |c1| >= 5 {
      assert c[1] == c1[1] && c[2] == c1[2] && c[3] == c1[3] && c[4] == c1[4];
      assert Operand(c) == Operand(c1);
    }
    if |c1| >= 2 { assert c[1] == c1[1]; }
  }

  /** Code that runs to its end, or traps, does the same with more code behind it. */
  lemma {:induction false} ExecAppend(t: Target, c1: seq<Byte>, c2: seq<Byte>, s: State)
    ensures Exec(t, c1, s).Done? ==> Exec(t, c1 + c2, s) == Exec(t, c2, Exec(t, c1, s).state)
    ensures Exec(t, c1, s).Trap? ==> Exec(t, c1 + c2, s).Trap?
    decreases |c1|
  {
    if c1 == [] {
      assert c1 + c2 == c2;
    } else {
      match Step(t, c1, s)
      case Truncated =>
      case Fault => StepLocal(t, c1, c2, s);
      case Next(n, s') =>
        if 0 < n <= |c1| {
          StepLocal(t, c1, c2, s);
          assert (c1 + c2)[n..] == c1[n..] + c2;
          ExecAppend(t, c1[n..], c2, s');
        }
    }
  }

  /** A text segment is zero beyond the emitted code, and zero is the no-op. */
  lemma {:induction false} ExecNoops(t: Target, code: seq<Byte>, s: State)
    requires forall i :: 0 <= i < |code| ==> code[i] == OP_NOOP
    ensures Exec(t, code, s) == Done(s)
    decreases |code|
  {
    if code != [] {
      ExecNoops(t, code[1..], s);
    }
  }
}
