/**
 Where the attribute pass goes wrong: a call has no data type of its own, and an operator takes the
 type of its first operand, so an operator whose first operand starts with a call emits nothing.
 This is exact: no other operator is compiled wrongly.
 */
module FinshTyping {
  import opened Common
  import opened FinshTree
  import opened FinshCode
  import opened FinshVm
  import opened FinshCorrect

  /** The operator's tree runs as it should from every stack with room, on every target and memory. */
  ghost predicate RunsRight(e: Expr) {
    forall t: Target, s: State :: |s.stack| + Depth(e) <= FINSH_STACK_MAX ==>
      Exec(t, Code(TypeCheck(ToTree(e, Null), false)), s) == Pushed(s, Eval(t, e, s.mem))
  }

  /** All operands are typed: what is missing, if anything, is the type of the first operand of the operator itself. */
  predicate OperandsTyped(e: Expr) {
    match e
    case Bin(_, left, right) => Typed(left) && Typed(right)
    case Not(e1) => Typed(e1)
    case Deref(e1) => Typed(e1)
    case AssignAt(p, e1) => Typed(p) && Typed(e1)
    case _ => Typed(e)
  }

  /** An untyped operator emits its operands and nothing else. */
  lemma UntypedBinCode(op: BinOp, left: Expr, right: Expr)
    requires Typed(left) && Typed(right) && LeafType(left) != DtDword
    ensures Code(TypeCheck(ToTree(Bin(op, left, right), Null), false)) == ExprCode(left) + ExprCode(right)
  {
    hide Code, TypeCheck, ExprCode;
    EmptyTree();
    LeafIsVoidOrDword(left);
    LeafTypeComputed(left, ToTree(right, Null));
    CodeOfExpr(left, ToTree(right, Null));
    CodeOfExpr(right, Null);
    OperatorCode(SysBin(op), ToTree(left, ToTree(right, Null)), Null);
    assert ExprCode(left) + (ExprCode(right) + []) + [] + [] == ExprCode(left) + ExprCode(right);
  }

  lemma UntypedUnaryCode(e: Expr)
    requires (e.Not? || e.Deref?) && Typed(e.e) && LeafType(e.e) != DtDword
    ensures Code(TypeCheck(ToTree(e, Null), false)) == ExprCode(e.e)
  {
    hide Code, TypeCheck, ExprCode;
    EmptyTree();
    LeafIsVoidOrDword(e.e);
    LeafTypeComputed(e.e, Null);
    CodeOfExpr(e.e, Null);
    OperatorCode(if e.Not? then SysBitwise else SysGetValue, ToTree(e.e, Null), Null);
    assert ExprCode(e.e) + [] + [] + [] == ExprCode(e.e);
  }

  lemma UntypedAssignCode(p: Expr, e: Expr)
    requires Typed(p) && Typed(e) && LeafType(p) != DtDword
    ensures Code(TypeCheck(ToTree(AssignAt(p, e), Null), false)) == ExprCode(p) + ExprCode(e)
  {
    hide Code, TypeCheck, ExprCode;
    EmptyTree();
    LeafIsVoidOrDword(p);
    CodeOfExpr(p, Null);
    CodeOfExpr(e, Null);
    assert ExprCode(p) + [] == ExprCode(p) && ExprCode(e) + [] == ExprCode(e);
    PointerChecked(p, ToTree(e, Null));
    OperatorCode(SysAssign, Node(Fresh(SysGetValue), ToTree(p, Null), ToTree(e, Null)), Null);
    assert ExprCode(p) + ExprCode(e) + [] + [] == ExprCode(p) + ExprCode(e);
  }

  lemma {:induction false} LeafIsVoidOrDword(e: Expr)
    ensures LeafType(e) == DtVoid || LeafType(e) == DtDword
  {
    match e
    case Bin(_, left, _) => LeafIsVoidOrDword(left);
    case Not(e1) => LeafIsVoidOrDword(e1);
    case AssignAt(p, _) => LeafIsVoidOrDword(p);
    case Deref(e1) => LeafIsVoidOrDword(e1);
    case AddressAt(e1) => LeafIsVoidOrDword(e1);
    case _ =>
  }

  // ---- A target on which every expression has a value ----

  /** Memory in which every byte is one. */
  ghost const Ones: Mem := map a: nat | 0 <= a < 0x1_0000_0003 :: OneAt(a)

  function OneAt(a: nat): Byte { 1 }

  /** Every operator gives zero; every function gives zero and fills the memory with ones. */
  ghost const ZeroTarget := Target((op, a, b) => Some(0), (f, args, m) => (0, Ones))

  ghost predicate FullMemory(m: Mem) {
    forall a: Word :: Mapped(m, a)
  }

  lemma OnesFull()
    ensures FullMemory(Ones) && LoadDword(Ones, 0) == Some(0x101_0101)
  {
  }

  lemma FullAccess(m: Mem, a: Word, v: Word)
    requires FullMemory(m)
    ensures LoadDword(m, a).Some? && StoreDword(m, a, v).Some? && FullMemory(StoreDword(m, a, v).value)
  {
    hide Bytes4, Word4;
    assert Mapped(m, a);
    var m' := StoreDword(m, a, v).value;
    forall b: Word ensures Mapped(m', b) { assert Mapped(m, b); }
  }

  lemma {:induction false} AlwaysValue(e: Expr, m: Mem)
    requires FullMemory(m)
    ensures Eval(ZeroTarget, e, m).Some? && FullMemory(Eval(ZeroTarget, e, m).value.1)
    decreases e
  {
    hide Bytes4, Word4, FullMemory, StoreDword, LoadDword;
    match e
    case Var(x) => FullAccess(m, x.addr, 0);
    case System(x, _) => FullAccess(m, x.addr, 0);
    case PreStep(_, x) => FullAccess(m, x.addr, 0);
    case PostStep(_, x) => FullAccess(m, x.addr, 0); FullAccess(StoreDword(m, x.addr, 0).value, x.addr, 0);
    case Bin(_, left, right) => AlwaysValue(left, m); AlwaysValue(right, Eval(ZeroTarget, left, m).value.1);
    case Not(e1) => AlwaysValue(e1, m);
    case AssignVar(x, e1) =>
      AlwaysValue(e1, m);
      var (v, m1) := Eval(ZeroTarget, e1, m).value;
      FullAccess(m1, x.addr, v);
    case AssignAt(p, e1) =>
      AlwaysValue(p, m);
      var (a, m1) := Eval(ZeroTarget, p, m).value;
      AlwaysValue(e1, m1);
      var (v, m2) := Eval(ZeroTarget, e1, m1).value;
      FullAccess(m2, a, v);
    case Deref(e1) =>
      AlwaysValue(e1, m);
      var (a, m1) := Eval(ZeroTarget, e1, m).value;
      FullAccess(m1, a, 0);
    case AddressAt(e1) => AlwaysValue(e1, m);
    case Call(_, args) => AlwaysValues(args, m); OnesFull();
    case _ =>
  }

  lemma {:induction false} AlwaysValues(args: Args, m: Mem)
    requires FullMemory(m)
    ensures EvalArgs(ZeroTarget, args, m).Some? && FullMemory(EvalArgs(ZeroTarget, args, m).value.1)
    decreases args
  {
    match args
    case NoArgs =>
    case Arg(head, tail) => AlwaysValue(head, m); AlwaysValues(tail, Eval(ZeroTarget, head, m).value.1);
  }

  /** A typed expression without a type is the result of a call. */
  lemma {:induction false} UntypedIsCall(e: Expr, m: Mem)
    requires Typed(e) && LeafType(e) != DtDword && FullMemory(m)
    ensures Eval(ZeroTarget, e, m) == Some((0, Ones))
    decreases e
  {
    match e
    case AddressAt(e1) => UntypedIsCall(e1, m);
    case Call(_, args) => AlwaysValues(args, m);
  }

  lemma RunsTyped(e: Expr)
    requires Typed(e)
    ensures RunsRight(e)
  {
    hide Exec, Code, TypeCheck, ToTree, ExprCode, Eval;
    forall t: Target, s: State | |s.stack| + Depth(e) <= FINSH_STACK_MAX
      ensures Exec(t, Code(TypeCheck(ToTree(e, Null), false)), s) == Pushed(s, Eval(t, e, s.mem))
    {
      EmptyTree();
      CodeOfExpr(e, Null);
      RunExpr(t, e, s);
      assert ExprCode(e) + [] == ExprCode(e);
    }
  }

  /** Two operands without their operator leave two cells. */
  lemma TwoCells(e: Expr, a: Expr, b: Expr)
    requires Typed(a) && Typed(b) && Depth(a) <= FINSH_STACK_MAX && 1 + Depth(b) <= FINSH_STACK_MAX
    requires Depth(e) <= FINSH_STACK_MAX
    requires Code(TypeCheck(ToTree(e, Null), false)) == ExprCode(a) + ExprCode(b)
    ensures !RunsRight(e)
  {
    hide Exec, Code, TypeCheck, ToTree, ExprCode, Eval, FullMemory, Typed;
    var s := State([], Ones);
    OnesFull();
    AlwaysValue(a, Ones);
    var (v, m1) := Eval(ZeroTarget, a, Ones).value;
    AlwaysValue(b, m1);
    RunExpr(ZeroTarget, a, s);
    RunThen(ZeroTarget, a, ExprCode(b), s);
    RunExpr(ZeroTarget, b, State(s.stack + [v], m1));
    AlwaysValue(e, Ones);
    var out := Exec(ZeroTarget, Code(TypeCheck(ToTree(e, Null), false)), s);
    assert out.Done? && |out.state.stack| == 2;
    assert |Pushed(s, Eval(ZeroTarget, e, s.mem)).state.stack| == 1;
  }

  /** An operand without its operator leaves another value than the operator would. */
  lemma OtherValue(e: Expr)
    requires (e.Not? || e.Deref?) && Typed(e.e) && LeafType(e.e) != DtDword && Depth(e) <= FINSH_STACK_MAX
    ensures !RunsRight(e)
  {
    hide Exec, Code, TypeCheck, ToTree, ExprCode, LoadDword;
    var s := State([], Ones);
    OnesFull();
    UntypedUnaryCode(e);
    UntypedIsCall(e.e, Ones);
    RunExpr(ZeroTarget, e.e, s);
    var out := Exec(ZeroTarget, Code(TypeCheck(ToTree(e, Null), false)), s);
    assert out.Done? && out.state.stack == [0];
    assert Pushed(s, Eval(ZeroTarget, e, s.mem)).state.stack == [if e.Not? then 0xffff_ffff else 0x101_0101];
  }

  /**
   Every operator over typed operands, and every expression without operators, is compiled correctly if and only if
   it is typed itself: an operator is not exactly if the leftmost leaf of its first operand is a call.
   */
  lemma RunsRightIffTyped(e: Expr)
    requires OperandsTyped(e) && Depth(e) <= FINSH_STACK_MAX
    ensures RunsRight(e) <==> Typed(e)
  {
    hide RunsRight;
    if Typed(e) {
      RunsTyped(e);
    } else {
      match e
      case Bin(op, left, right) => UntypedBinCode(op, left, right); TwoCells(e, left, right);
      case AssignAt(p, e1) => UntypedAssignCode(p, e1); TwoCells(e, p, e1);
      case Not(_) => OtherValue(e);
      case Deref(_) => OtherValue(e);
    }
  }
}
