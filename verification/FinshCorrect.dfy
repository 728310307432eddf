/**
 Compiler correctness for the dword expressions of the shell: a reference meaning for expressions,
 the trees the parser builds for them, and the proof that attributing, compiling and running the
 tree computes that meaning.
 */
module FinshCorrect {
  import opened Common
  import opened FinshTree
  import opened FinshCode
  import opened FinshVm

  datatype Literal = IntLit | LongLit | StringLit | NullLit

  /** A dword variable: `int`, `long` or a pointer other than `void *`. */
  predicate DwordVar(t: VarType) {
    VarDataType(t) == DtDword && t != TVoidP
  }

  datatype Variable = Variable(vtype: VarType, addr: Word)

  datatype Expr =
    | Lit(l: Literal, w: Word)
    | Var(x: Variable)
    | System(x: Variable, asVar: Word)
    | Bin(op: BinOp, left: Expr, right: Expr)
    | Not(e: Expr)
    | AssignVar(x: Variable, e: Expr)
    | AssignAt(p: Expr, e: Expr)
    | PreStep(inc: bool, x: Variable)
    | PostStep(inc: bool, x: Variable)
    | Deref(e: Expr)
    | AddressOf(x: Variable)
    | AddressAt(e: Expr)
    | Call(f: Word, args: Args)
  datatype Args = NoArgs | Arg(head: Expr, tail: Args)

  /** The data type that the attribute pass computes: the type of the leftmost leaf. */
  function LeafType(e: Expr): DataType {
    match e
    case Bin(_, left, _) => LeafType(left)
    case Not(e) => LeafType(e)
    case AssignAt(p, _) => LeafType(p)
    case Deref(e) => LeafType(e)
    case AddressAt(e) => LeafType(e)
    case Call(_, _) => DtVoid
    case _ => DtDword
  }

  function Count(args: Args): nat {
    if args.NoArgs? then 0 else 1 + Count(args.tail)
  }

  /**
   Dword-typed expressions: variables are dwords, calls have at most 16 parameters, and no operator
   has a call as its leftmost leaf (a call is left untyped by the attribute pass).
   */
  predicate Typed(e: Expr) {
    match e
    case Lit(_, _) => true
    case Var(x) => DwordVar(x.vtype)
    case System(x, _) => DwordVar(x.vtype)
    case Bin(_, left, right) => Typed(left) && Typed(right) && LeafType(left) == DtDword
    case Not(e) => Typed(e) && LeafType(e) == DtDword
    case AssignVar(x, e) => DwordVar(x.vtype) && Typed(e)
    case AssignAt(p, e) => Typed(p) && Typed(e) && LeafType(p) == DtDword
    case PreStep(_, x) => DwordVar(x.vtype)
    case PostStep(_, x) => DwordVar(x.vtype)
    case Deref(e) => Typed(e) && LeafType(e) == DtDword
    case AddressOf(x) => DwordVar(x.vtype)
    case AddressAt(e) => Typed(e)
    case Call(_, args) => Count(args) <= 16 && TypedArgs(args)
  }

  predicate TypedArgs(args: Args) {
    args.Arg? ==> Typed(args.head) && TypedArgs(args.tail)
  }

  // ---- The trees of the parser ----

  function Fresh(kind: Kind): Info {
    var base := match kind
      case Id(symbol) =>
        (match symbol case UserVar(_, _) => VarId case SysVar(_, _, _) => SysVarId case SysCall(_) => SysCallId)
      case _ => NoId;
    Info(kind, DtVoid, IdType(base, false))
  }

  function VarNode(x: Variable, sibling: Tree): Tree {
    Node(Fresh(Id(UserVar(x.vtype, x.addr))), Null, sibling)
  }

  function LitKind(l: Literal, w: Word): Kind {
    match l
    case IntLit => ValueInt(w)
    case LongLit => ValueLong(w)
    case StringLit => ValueString(w)
    case NullLit => ValueNull(w)
  }

  function ToTree(e: Expr, sibling: Tree): Tree {
    match e
    case Lit(l, w) => Node(Fresh(LitKind(l, w)), Null, sibling)
    case Var(x) => VarNode(x, sibling)
    case System(x, asVar) => Node(Fresh(Id(SysVar(x.vtype, x.addr, asVar))), Null, sibling)
    case Bin(op, left, right) => Node(Fresh(SysBin(op)), ToTree(left, ToTree(right, Null)), sibling)
    case Not(e) => Node(Fresh(SysBitwise), ToTree(e, Null), sibling)
    case AssignVar(x, e) => Node(Fresh(SysAssign), VarNode(x, ToTree(e, Null)), sibling)
    case AssignAt(p, e) =>
      Node(Fresh(SysAssign), Node(Fresh(SysGetValue), ToTree(p, Null), ToTree(e, Null)), sibling)
    case PreStep(inc, x) => Node(Fresh(if inc then SysPreInc else SysPreDec), VarNode(x, Null), sibling)
    case PostStep(inc, x) => Node(Fresh(if inc then SysInc else SysDec), VarNode(x, Null), sibling)
    case Deref(e) => Node(Fresh(SysGetValue), ToTree(e, Null), sibling)
    case AddressOf(x) => Node(Fresh(SysGetAddr), VarNode(x, Null), sibling)
    case AddressAt(e) => Node(Fresh(SysGetAddr), Node(Fresh(SysGetValue), ToTree(e, Null), Null), sibling)
    case Call(f, args) => Node(Fresh(SysFunc), Node(Fresh(Id(SysCall(f))), Null, ArgsTree(args)), sibling)
  }

  function ArgsTree(args: Args): Tree {
    match args
    case NoArgs => Null
    case Arg(head, tail) => ToTree(head, ArgsTree(tail))
  }

  // ---- The reference meaning ----

  function Eval(t: Target, e: Expr, m: Mem): Option<(Word, Mem)> {
    match e
    case Lit(_, w) => Some((w, m))
    case Var(x) => Fetch(x.addr, m)
    case System(x, _) => Fetch(x.addr, m)
    case Bin(op, left, right) =>
      (match Eval(t, left, m)
       case None => None
       case Some((a, m1)) =>
         match Eval(t, right, m1)
         case None => None
         case Some((b, m2)) => match t.alu(op, a, b) case None => None case Some(v) => Some((v, m2)))
    case Not(e) =>
      (match Eval(t, e, m) case None => None case Some((v, m1)) => Some((0xffff_ffff - v, m1)))
    case AssignVar(x, e) =>
      (match Eval(t, e, m) case None => None case Some((v, m1)) => Assign(x.addr, v, m1))
    case AssignAt(p, e) =>
      (match Eval(t, p, m)
       case None => None
       case Some((a, m1)) => match Eval(t, e, m1) case None => None case Some((v, m2)) => Assign(a, v, m2))
    case PreStep(inc, x) => Bump(t, inc, x.addr, m)
    case PostStep(inc, x) =>
      (match Bump(t, inc, x.addr, m) case None => None case Some((_, m1)) => Some((LoadDword(m, x.addr).value, m1)))
    case Deref(e) =>
      (match Eval(t, e, m) case None => None case Some((a, m1)) => Fetch(a, m1))
    case AddressOf(x) => Some((x.addr, m))
    case AddressAt(e) => Eval(t, e, m)
    case Call(f, args) =>
      (match EvalArgs(t, args, m) case None => None case Some((vs, m1)) => Some(t.sys(f, vs, m1)))
  }

  function EvalArgs(t: Target, args: Args, m: Mem): (r: Option<(seq<Word>, Mem)>)
    ensures r.Some? ==> |r.value.0| == Count(args)
  {
    match args
    case NoArgs => Some(([], m))
    case Arg(head, tail) =>
      match Eval(t, head, m)
      case None => None
      case Some((v, m1)) =>
        match EvalArgs(t, tail, m1) case None => None case Some((vs, m2)) => Some(([v] + vs, m2))
  }

  function Fetch(a: Word, m: Mem): Option<(Word, Mem)> {
    match LoadDword(m, a) case None => None case Some(v) => Some((v, m))
  }

  function Assign(a: Word, v: Word, m: Mem): Option<(Word, Mem)> {
    match StoreDword(m, a, v) case None => None case Some(m') => Some((v, m'))
  }

  function StepOp(inc: bool): BinOp {
    if inc then Add else Sub
  }

  /** x = x + 1 or x = x - 1, with the new value as result. */
  function Bump(t: Target, inc: bool, a: Word, m: Mem): (r: Option<(Word, Mem)>)
    ensures r.Some? ==> LoadDword(m, a).Some?
  {
    match LoadDword(m, a)
    case None => None
    case Some(v) => match t.alu(StepOp(inc), v, 1) case None => None case Some(w) => Assign(a, w, m)
  }

  /** The number of stack cells an expression needs. */
  function Depth(e: Expr): (d: nat)
    ensures d >= 1
  {
    match e
    case Bin(_, left, right) => Max(Depth(left), 1 + Depth(right))
    case Not(e) => Depth(e)
    case AssignVar(_, e) => 1 + Depth(e)
    case AssignAt(p, e) => Max(Depth(p), 1 + Depth(e))
    case PreStep(_, _) => 3
    case PostStep(_, _) => 4
    case Deref(e) => Depth(e)
    case AddressAt(e) => Depth(e)
    case Call(_, args) => 1 + DepthArgs(args)
    case _ => 1
  }

  function DepthArgs(args: Args): nat {
    match args
    case NoArgs => 0
    case Arg(head, tail) => Max(Depth(head), 1 + DepthArgs(tail))
  }

  // ---- The code of an expression ----

  function LdDword(w: Word): seq<Byte> { [OP_LD_DWORD] + Bytes4(w) }

  function LdValue(a: Word): seq<Byte> { [OP_LD_VALUE_DWORD] + Bytes4(a) }

  const StoreReload: seq<Byte> := [OP_ST_DWORD, OP_LD_VALUE_DWORD_STACK]

  function Bumping(inc: bool, a: Word): seq<Byte> {
    LdValue(a) + LdDword(1) + [BinBase(StepOp(inc)) + 2]
  }

  function ExprCode(e: Expr): seq<Byte> {
    match e
    case Lit(_, w) => LdDword(w)
    case Var(x) => LdValue(x.addr)
    case System(x, _) => LdValue(x.addr)
    case Bin(op, left, right) => ExprCode(left) + ExprCode(right) + [BinBase(op) + 2]
    case Not(e) => ExprCode(e) + [OP_BITWISE_DWORD]
    case AssignVar(x, e) => LdDword(x.addr) + ExprCode(e) + StoreReload
    case AssignAt(p, e) => ExprCode(p) + ExprCode(e) + StoreReload
    case PreStep(inc, x) => LdDword(x.addr) + Bumping(inc, x.addr) + StoreReload
    case PostStep(inc, x) =>
      LdValue(x.addr) + LdDword(x.addr) + Bumping(inc, x.addr) + [OP_ST_DWORD, OP_POP]
    case Deref(e) => ExprCode(e) + [OP_LD_VALUE_DWORD_STACK]
    case AddressOf(x) => LdDword(x.addr)
    case AddressAt(e) => ExprCode(e)
    case Call(f, args) => LdDword(f) + ArgsCode(args) + [OP_SYSCALL, Count(args) % 0x100]
  }

  function ArgsCode(args: Args): seq<Byte> {
    match args
    case NoArgs => []
    case Arg(head, tail) => ExprCode(head) + ArgsCode(tail)
  }

  /** A variable node after the attribute pass. */
  lemma VarChecked(x: Variable, sibling: Tree, isAddr: bool)
    requires DwordVar(x.vtype)
    ensures TypeCheck(VarNode(x, sibling), isAddr)
         == Node(Info(Id(UserVar(x.vtype, x.addr)), DtDword, IdType(VarId, isAddr)), Null, TypeCheck(sibling, false))
    ensures Code(TypeCheck(VarNode(x, sibling), isAddr))
         == (if isAddr then LdDword(x.addr) else LdValue(x.addr)) + Code(TypeCheck(sibling, false))
  {
  }

  /** An operator node takes its data type from its first child. */
  lemma TypeFromChild(kind: Kind, child: Tree, sibling: Tree, isAddr: bool)
    requires child.Node?
    ensures var c := TypeCheck(Node(Fresh(kind), child, sibling), isAddr);
            && c.Node? && c.info.kind == kind && c.sibling == TypeCheck(sibling, false)
            && c.child == TypeCheck(child, ChildAddress(kind, isAddr)) && c.child.Node?
            && c.info.dtype == c.child.info.dtype
  {
  }

  lemma LeafChecked(e: Expr, sibling: Tree)
    requires Typed(e) && (e.Lit? || e.Var? || e.System?)
    ensures TypeCheck(ToTree(e, sibling), false).Node?
    ensures TypeCheck(ToTree(e, sibling), false).info.dtype == DtDword
  {
  }

  lemma {:induction false} LeafTypeComputed(e: Expr, sibling: Tree)
    requires Typed(e)
    ensures TypeCheck(ToTree(e, sibling), false).Node?
    ensures TypeCheck(ToTree(e, sibling), false).info.dtype == LeafType(e)
    decreases e
  {
    hide TypeCheck;
    match e
    case Bin(op, left, right) =>
      LeafTypeComputed(left, ToTree(right, Null));
      TypeFromChild(SysBin(op), ToTree(left, ToTree(right, Null)), sibling, false);
    case Not(e) =>
      LeafTypeComputed(e, Null);
      TypeFromChild(SysBitwise, ToTree(e, Null), sibling, false);
    case AssignVar(x, e) =>
      VarChecked(x, ToTree(e, Null), true);
      TypeFromChild(SysAssign, VarNode(x, ToTree(e, Null)), sibling, false);
    case AssignAt(p, e) =>
      LeafTypeComputed(p, Null);
      var target := Node(Fresh(SysGetValue), ToTree(p, Null), ToTree(e, Null));
      TypeFromChild(SysGetValue, ToTree(p, Null), ToTree(e, Null), true);
      TypeFromChild(SysAssign, target, sibling, false);
    case PreStep(inc, x) =>
      VarChecked(x, Null, true);
      TypeFromChild(if inc then SysPreInc else SysPreDec, VarNode(x, Null), sibling, false);
    case PostStep(inc, x) =>
      VarChecked(x, Null, false);
      TypeFromChild(if inc then SysInc else SysDec, VarNode(x, Null), sibling, false);
    case Deref(e) =>
      LeafTypeComputed(e, Null);
      TypeFromChild(SysGetValue, ToTree(e, Null), sibling, false);
    case AddressOf(x) =>
      VarChecked(x, Null, true);
      TypeFromChild(SysGetAddr, VarNode(x, Null), sibling, false);
    case AddressAt(e) =>
      LeafTypeComputed(e, Null);
      TypeFromChild(SysGetValue, ToTree(e, Null), Null, true);
      TypeFromChild(SysGetAddr, Node(Fresh(SysGetValue), ToTree(e, Null), Null), sibling, false);
    case Call(f, args) =>
      FunctionChecked(f, ArgsTree(args));
      TypeFromChild(SysFunc, Node(Fresh(Id(SysCall(f))), Null, ArgsTree(args)), sibling, false);
    case _ => LeafChecked(e, sibling);
  }

  lemma {:induction false} ArgsCounted(args: Args)
    ensures Siblings(TypeCheck(ArgsTree(args), false)) == Count(args)
  {
    match args
    case NoArgs =>
    case Arg(head, tail) =>
      ArgsCounted(tail);
      assert ToTree(head, ArgsTree(tail)).sibling == ArgsTree(tail);
  }

  const PlainId := IdType(NoId, false)

  /** The code of an operator node around an attributed child. */
  lemma OperatorCode(kind: Kind, child: Tree, sibling: Tree)
    requires !kind.Id? && child.Node?
    ensures var c := TypeCheck(child, ChildAddress(kind, false));
            && c.Node?
            && Code(TypeCheck(Node(Fresh(kind), child, sibling), false))
            == Code(c) + OwnCode(Info(kind, c.info.dtype, PlainId), c) + Code(TypeCheck(sibling, false))
  {
    hide OwnCode;
    var c := TypeCheck(child, ChildAddress(kind, false));
    assert Decorate(Fresh(kind), false, c) == Info(kind, c.info.dtype, PlainId);
  }

  /** What each dword operator emits after its operands. */
  lemma OwnCodes(c: Tree)
    requires c.Node? && c.info.dtype == DtDword
    ensures forall op :: OwnCode(Info(SysBin(op), DtDword, PlainId), c) == [BinBase(op) + 2]
    ensures OwnCode(Info(SysBitwise, DtDword, PlainId), c) == [OP_BITWISE_DWORD]
    ensures OwnCode(Info(SysGetValue, DtDword, PlainId), c) == [OP_LD_VALUE_DWORD_STACK]
    ensures c.info.kind.Id? || c.info.kind == SysGetValue ==>
            OwnCode(Info(SysAssign, DtDword, PlainId), c) == StoreReload
  {
  }

  lemma OwnStep(inc: bool, x: Variable, c: Tree)
    requires c.Node? && c.info.kind == Id(UserVar(x.vtype, x.addr))
    ensures OwnCode(Info(if inc then SysPreInc else SysPreDec, DtDword, PlainId), c)
         == Bumping(inc, x.addr) + StoreReload
    ensures OwnCode(Info(if inc then SysInc else SysDec, DtDword, PlainId), c)
         == LdDword(x.addr) + Bumping(inc, x.addr) + [OP_ST_DWORD, OP_POP]
  {
    hide Bytes4;
    var op := StepOp(inc);
    assert OwnCode(Info(if inc then SysPreInc else SysPreDec, DtDword, PlainId), c) == PreStepCode(op, x.addr, DtDword);
    assert OwnCode(Info(if inc then SysInc else SysDec, DtDword, PlainId), c) == PostStepCode(op, x.addr, DtDword);
    StepCodes(op, x.addr);
  }

  lemma StepCodes(op: BinOp, a: Word)
    ensures PreStepCode(op, a, DtDword) == LdValue(a) + LdDword(1) + [BinBase(op) + 2] + StoreReload
    ensures PostStepCode(op, a, DtDword)
         == LdDword(a) + (LdValue(a) + LdDword(1) + [BinBase(op) + 2]) + [OP_ST_DWORD, OP_POP]
  {
    hide Bytes4, BinBase;
    var tail := [BinBase(op) + 2, OP_ST_DWORD, OP_POP];
    assert PostStepCode(op, a, DtDword)
        == [OP_LD_DWORD] + Bytes4(a) + [OP_LD_VALUE_DWORD] + Bytes4(a) + [OP_LD_DWORD] + Bytes4(1) + tail;
    assert PreStepCode(op, a, DtDword)
        == [OP_LD_VALUE_DWORD] + Bytes4(a) + [OP_LD_DWORD] + Bytes4(1)
           + [BinBase(op) + 2, OP_ST_DWORD, OP_LD_VALUE_DWORD_STACK];
  }

  /** `*p` as a destination: the pointer's own code, and nothing for the dereference. */
  lemma {:induction false} PointerChecked(p: Expr, sibling: Tree)
    requires Typed(p)
    requires Code(TypeCheck(ToTree(p, Null), false)) == ExprCode(p)
    ensures var c := TypeCheck(Node(Fresh(SysGetValue), ToTree(p, Null), sibling), true);
            && c.Node? && c.info.kind == SysGetValue && c.info.dtype == LeafType(p)
            && Code(c) == ExprCode(p) + Code(TypeCheck(sibling, false))
  {
    LeafTypeComputed(p, Null);
    var c := TypeCheck(Node(Fresh(SysGetValue), ToTree(p, Null), sibling), true);
    assert c.child == TypeCheck(ToTree(p, Null), false);
    assert OwnCode(c.info, c.child) == [];
  }

  /** The tree of `e` compiles to the code of `e`, then that of its siblings. */
  ghost predicate Compiles(e: Expr, sibling: Tree) {
    Code(TypeCheck(ToTree(e, sibling), false)) == ExprCode(e) + Code(TypeCheck(sibling, false))
  }

  lemma LeafCompiled(e: Expr, sibling: Tree)
    requires Typed(e) && (e.Lit? || e.Var? || e.System?)
    ensures Compiles(e, sibling)
  {
    if e.Var? { VarChecked(e.x, sibling, false); }
  }

  lemma PreStepCompiled(inc: bool, x: Variable, sibling: Tree)
    requires DwordVar(x.vtype)
    ensures Compiles(PreStep(inc, x), sibling)
  {
    hide OwnCode, Bytes4, Bumping, TypeCheck, Code;
    VarChecked(x, Null, true);
    EmptyTree();
    OperatorCode(if inc then SysPreInc else SysPreDec, VarNode(x, Null), sibling);
    OwnStep(inc, x, TypeCheck(VarNode(x, Null), true));
    Regroup(LdDword(x.addr), Bumping(inc, x.addr), StoreReload);
  }

  lemma PostStepCompiled(inc: bool, x: Variable, sibling: Tree)
    requires DwordVar(x.vtype)
    ensures Compiles(PostStep(inc, x), sibling)
  {
    hide OwnCode, Bytes4, Bumping, TypeCheck, Code;
    VarChecked(x, Null, false);
    EmptyTree();
    OperatorCode(if inc then SysInc else SysDec, VarNode(x, Null), sibling);
    OwnStep(inc, x, TypeCheck(VarNode(x, Null), false));
    Regroup(LdDword(x.addr), Bumping(inc, x.addr), [OP_ST_DWORD, OP_POP]);
    Regroup(LdValue(x.addr), LdDword(x.addr) + Bumping(inc, x.addr), [OP_ST_DWORD, OP_POP]);
    Regroup(LdValue(x.addr), LdDword(x.addr), Bumping(inc, x.addr));
  }

  lemma EmptyTree()
    ensures TypeCheck(Null, false) == Null && Code(Null) == []
  {
  }

  lemma Regroup(a: seq<Byte>, b: seq<Byte>, c: seq<Byte>)
    ensures (a + []) + (b + c) == a + b + c == a + (b + c)
  {
    assert a + [] == a;
  }

  lemma Flatten(a: seq<Byte>, b: seq<Byte>, own: seq<Byte>, rest: seq<Byte>)
    ensures (a + (b + [])) + own + rest == ((a + b) + own) + rest
  {
    assert b + [] == b;
  }

  lemma {:induction false} BinCompiled(op: BinOp, left: Expr, right: Expr, sibling: Tree)
    requires Typed(Bin(op, left, right))
    requires Compiles(left, ToTree(right, Null)) && Compiles(right, Null)
    ensures Compiles(Bin(op, left, right), sibling)
  {
    hide OwnCode, Bytes4, Code, TypeCheck;
    EmptyTree();
    var operands := ToTree(left, ToTree(right, Null));
    LeafTypeComputed(left, ToTree(right, Null));
    OperatorCode(SysBin(op), operands, sibling);
    OwnCodes(TypeCheck(operands, false));
    Flatten(ExprCode(left), ExprCode(right), [BinBase(op) + 2], Code(TypeCheck(sibling, false)));
  }

  lemma UnaryCompiled(e: Expr, sibling: Tree)
    requires Typed(e) && (e.Not? || e.Deref?) && Compiles(e.e, Null)
    ensures Compiles(e, sibling)
  {
    hide OwnCode, Bytes4, Code, TypeCheck;
    EmptyTree();
    LeafTypeComputed(e.e, Null);
    OperatorCode(if e.Not? then SysBitwise else SysGetValue, ToTree(e.e, Null), sibling);
    OwnCodes(TypeCheck(ToTree(e.e, Null), false));
  }

  lemma AddressCompiled(e: Expr, sibling: Tree)
    requires Typed(e) && (e.AddressOf? || (e.AddressAt? && Compiles(e.e, Null)))
    ensures Compiles(e, sibling)
  {
    hide Bytes4, Code, TypeCheck;
    EmptyTree();
    if e.AddressOf? {
      VarChecked(e.x, Null, true);
      OperatorCode(SysGetAddr, VarNode(e.x, Null), sibling);
    } else {
      PointerChecked(e.e, Null);
      OperatorCode(SysGetAddr, Node(Fresh(SysGetValue), ToTree(e.e, Null), Null), sibling);
    }
  }

  lemma AssignCompiled(e: Expr, sibling: Tree)
    requires Typed(e) && (e.AssignVar? || (e.AssignAt? && Compiles(e.p, Null)))
    requires Compiles(e.e, Null)
    ensures Compiles(e, sibling)
  {
    hide OwnCode, Bytes4;
    var value := ToTree(e.e, Null);
    if e.AssignVar? {
      VarChecked(e.x, value, true);
      OperatorCode(SysAssign, VarNode(e.x, value), sibling);
      OwnCodes(TypeCheck(VarNode(e.x, value), true));
      Flatten(LdDword(e.x.addr), ExprCode(e.e), StoreReload, Code(TypeCheck(sibling, false)));
    } else {
      var target := Node(Fresh(SysGetValue), ToTree(e.p, Null), value);
      PointerChecked(e.p, value);
      OperatorCode(SysAssign, target, sibling);
      OwnCodes(TypeCheck(target, true));
      Flatten(ExprCode(e.p), ExprCode(e.e), StoreReload, Code(TypeCheck(sibling, false)));
    }
  }

  lemma FunctionChecked(f: Word, sibling: Tree)
    ensures TypeCheck(Node(Fresh(Id(SysCall(f))), Null, sibling), false)
         == Node(Fresh(Id(SysCall(f))), Null, TypeCheck(sibling, false))
    ensures Code(TypeCheck(Node(Fresh(Id(SysCall(f))), Null, sibling), false))
         == LdDword(f) + Code(TypeCheck(sibling, false))
  {
  }

  lemma {:induction false} CallCompiled(f: Word, args: Args, sibling: Tree)
    requires Code(TypeCheck(ArgsTree(args), false)) == ArgsCode(args)
    ensures Compiles(Call(f, args), sibling)
  {
    hide Bytes4, TypeCheck, Code;
    ArgsCounted(args);
    TypeFromChild(SysFunc, Node(Fresh(Id(SysCall(f))), Null, ArgsTree(args)), sibling, false);
    FunctionChecked(f, ArgsTree(args));
    OperatorCode(SysFunc, Node(Fresh(Id(SysCall(f))), Null, ArgsTree(args)), sibling);
  }

  /** Attributing and compiling a typed expression emits its code, then that of the siblings. */
  lemma {:induction false} CodeOfExpr(e: Expr, sibling: Tree)
    requires Typed(e)
    ensures Compiles(e, sibling)
    decreases e
  {
    match e
    case Bin(op, left, right) =>
      CodeOfExpr(left, ToTree(right, Null));
      CodeOfExpr(right, Null);
      BinCompiled(op, left, right, sibling);
    case Not(e1) => CodeOfExpr(e1, Null); UnaryCompiled(e, sibling);
    case Deref(e1) => CodeOfExpr(e1, Null); UnaryCompiled(e, sibling);
    case AssignVar(x, e1) => CodeOfExpr(e1, Null); AssignCompiled(e, sibling);
    case AssignAt(p, e1) => CodeOfExpr(p, Null); CodeOfExpr(e1, Null); AssignCompiled(e, sibling);
    case PreStep(inc, x) => PreStepCompiled(inc, x, sibling);
    case PostStep(inc, x) => PostStepCompiled(inc, x, sibling);
    case AddressOf(x) => AddressCompiled(e, sibling);
    case AddressAt(e1) => CodeOfExpr(e1, Null); AddressCompiled(e, sibling);
    case Call(f, args) => CodeOfArgs(args); CallCompiled(f, args, sibling);
    case _ => LeafCompiled(e, sibling);
  }

  lemma {:induction false} CodeOfArgs(args: Args)
    requires TypedArgs(args)
    ensures Code(TypeCheck(ArgsTree(args), false)) == ArgsCode(args)
    decreases args
  {
    match args
    case NoArgs =>
    case Arg(head, tail) =>
      CodeOfArgs(tail);
      CodeOfExpr(head, ArgsTree(tail));
  }

  // ---- Running the code of an expression ----

  /** The state after an expression that evaluates to `r`: one more cell, or a trap. */
  function Pushed(s: State, r: Option<(Word, Mem)>): Outcome {
    match r case None => Trap case Some((v, m)) => Done(State(s.stack + [v], m))
  }

  lemma RunLdDword(t: Target, w: Word, s: State)
    requires |s.stack| < FINSH_STACK_MAX
    ensures Exec(t, LdDword(w), s) == Pushed(s, Some((w, s.mem)))
  {
    DwordRoundTrip(w);
    hide Bytes4, Word4;
    var code := LdDword(w);
    assert code[1] == Bytes4(w)[0] && code[2] == Bytes4(w)[1] && code[3] == Bytes4(w)[2] && code[4] == Bytes4(w)[3];
    assert Operand(code) == w;
    assert code[5..] == [];
  }

  lemma RunLdValue(t: Target, a: Word, s: State)
    requires |s.stack| < FINSH_STACK_MAX
    ensures Exec(t, LdValue(a), s) == Pushed(s, Fetch(a, s.mem))
  {
    DwordRoundTrip(a);
    hide Bytes4, Word4;
    var code := LdValue(a);
    assert code[1] == Bytes4(a)[0] && code[2] == Bytes4(a)[1] && code[3] == Bytes4(a)[2] && code[4] == Bytes4(a)[3];
    assert Operand(code) == a;
    assert code[5..] == [];
  }

  /** A single-byte instruction. */
  lemma RunOne(t: Target, op: Byte, s: State)
    ensures Exec(t, [op], s) == (match Step(t, [op], s)
                                 case Next(n, s') => if n == 1 then Done(s') else Cut
                                 case Fault => Trap
                                 case Truncated => Cut)
  {
    hide Step;
    var code := [op];
    assert code[1..] == [];
    match Step(t, code, s)
    case Next(n, s') => if n == 1 { assert Exec(t, code[1..], s') == Done(s'); }
    case _ =>
  }

  lemma RunBin(t: Target, op: BinOp, s: State, a: Word, b: Word)
    ensures Exec(t, [BinBase(op) + 2], State(s.stack + [a] + [b], s.mem))
         == (match t.alu(op, a, b) case None => Trap case Some(v) => Done(State(s.stack + [v], s.mem)))
  {
    var s2 := State(s.stack + [a] + [b], s.mem);
    RunOne(t, BinBase(op) + 2, s2);
    hide Exec;
    assert BinOpOf(BinBase(op) + 2) == Some(op);
    assert s2.stack[..|s.stack|] == s.stack;
  }

  lemma RunNot(t: Target, s: State, v: Word)
    ensures Exec(t, [OP_BITWISE_DWORD], State(s.stack + [v], s.mem)) == Done(State(s.stack + [0xffff_ffff - v], s.mem))
  {
    var s2 := State(s.stack + [v], s.mem);
    RunOne(t, OP_BITWISE_DWORD, s2);
    hide Exec;
    assert s2.stack[..|s.stack|] == s.stack;
  }

  lemma RunDeref(t: Target, s: State, a: Word)
    ensures Exec(t, [OP_LD_VALUE_DWORD_STACK], State(s.stack + [a], s.mem)) == Pushed(s, Fetch(a, s.mem))
  {
    var s2 := State(s.stack + [a], s.mem);
    RunOne(t, OP_LD_VALUE_DWORD_STACK, s2);
    hide Exec, LoadDword;
    assert s2.stack[..|s.stack|] == s.stack;
  }

  lemma RunStore(t: Target, s: State, a: Word, v: Word)
    ensures Exec(t, [OP_ST_DWORD], State(s.stack + [a] + [v], s.mem))
         == (match StoreDword(s.mem, a, v) case None => Trap case Some(m) => Done(State(s.stack + [a], m)))
  {
    var s2 := State(s.stack + [a] + [v], s.mem);
    RunOne(t, OP_ST_DWORD, s2);
    hide Exec, StoreDword;
    assert s2.stack[..|s.stack| + 1] == s.stack + [a];
  }

  lemma RunPop(t: Target, s: State, v: Word)
    ensures Exec(t, [OP_POP], State(s.stack + [v], s.mem)) == Done(s)
  {
    var s2 := State(s.stack + [v], s.mem);
    RunOne(t, OP_POP, s2);
    hide Exec;
    assert s2.stack[..|s.stack|] == s.stack;
  }

  /** Store, then load the stored value back through the address left on the stack. */
  lemma RunStoreReload(t: Target, s: State, a: Word, v: Word)
    ensures Exec(t, StoreReload, State(s.stack + [a] + [v], s.mem)) == Pushed(s, Assign(a, v, s.mem))
  {
    var s2 := State(s.stack + [a] + [v], s.mem);
    RunStore(t, s, a, v);
    ExecAppend(t, [OP_ST_DWORD], [OP_LD_VALUE_DWORD_STACK], s2);
    assert StoreReload == [OP_ST_DWORD] + [OP_LD_VALUE_DWORD_STACK];
    hide Exec, StoreDword, LoadDword;
    match StoreDword(s.mem, a, v)
    case None =>
    case Some(m) =>
      RunDeref(t, State(s.stack, m), a);
      LoadAfterStore(s.mem, a, v);
  }

  lemma RunCall(t: Target, s: State, f: Word, vs: seq<Word>)
    requires |vs| <= 16
    ensures Exec(t, [OP_SYSCALL, |vs| % 0x100], State(s.stack + [f] + vs, s.mem))
            == Pushed(s, Some(t.sys(f, vs, s.mem)))
  {
    var code := [OP_SYSCALL, |vs| % 0x100];
    var s2 := State(s.stack + [f] + vs, s.mem);
    var n := |s2.stack|;
    assert s2.stack[n - |vs|..] == vs;
    assert s2.stack[..n - |vs| - 1] == s.stack;
    assert s2.stack[n - |vs| - 1] == f;
    assert code[2..] == [];
  }

  /** The load, add-one and its operand: the old value is replaced by the new one. */
  lemma RunBumping(t: Target, inc: bool, a: Word, s: State)
    requires |s.stack| + 2 <= FINSH_STACK_MAX
    ensures Exec(t, Bumping(inc, a), s)
         == (match LoadDword(s.mem, a)
             case None => Trap
             case Some(v) => match t.alu(StepOp(inc), v, 1)
                                          case None => Trap case Some(w) => Pushed(s, Some((w, s.mem))))
  {
    var op := [BinBase(StepOp(inc)) + 2];
    RunLdValue(t, a, s);
    ExecAppend(t, LdValue(a), LdDword(1) + op, s);
    assert Bumping(inc, a) == LdValue(a) + (LdDword(1) + op);
    hide Exec, LdValue, LdDword, LoadDword, BinBase;
    match LoadDword(s.mem, a)
    case None =>
    case Some(v) =>
      var s1 := State(s.stack + [v], s.mem);
      RunLdDword(t, 1, s1);
      ExecAppend(t, LdDword(1), op, s1);
      RunBin(t, StepOp(inc), s, v, 1);
  }

  lemma RunBumped(t: Target, inc: bool, a: Word, s: State)
    requires |s.stack| + 3 <= FINSH_STACK_MAX
    ensures Exec(t, Bumping(inc, a) + StoreReload, State(s.stack + [a], s.mem)) == Pushed(s, Bump(t, inc, a, s.mem))
  {
    hide Bumping, LoadDword, StoreReload, Exec, StoreDword, StepOp;
    var s1 := State(s.stack + [a], s.mem);
    RunBumping(t, inc, a, s1);
    ExecAppend(t, Bumping(inc, a), StoreReload, s1);
    if LoadDword(s.mem, a).Some? {
      var w := t.alu(StepOp(inc), LoadDword(s.mem, a).value, 1);
      if w.Some? { RunStoreReload(t, s, a, w.value); }
    }
  }

  lemma RunPreStep(t: Target, inc: bool, x: Variable, s: State)
    requires |s.stack| + 3 <= FINSH_STACK_MAX
    ensures Exec(t, ExprCode(PreStep(inc, x)), s) == Pushed(s, Eval(t, PreStep(inc, x), s.mem))
  {
    hide Bumping, LdDword, StoreReload, Exec, Bump;
    Regroup(LdDword(x.addr), Bumping(inc, x.addr), StoreReload);
    RunLdDword(t, x.addr, s);
    ExecAppend(t, LdDword(x.addr), Bumping(inc, x.addr) + StoreReload, s);
    RunBumped(t, inc, x.addr, s);
  }

  lemma RunPostStep(t: Target, inc: bool, x: Variable, s: State)
    requires |s.stack| + 4 <= FINSH_STACK_MAX
    ensures Exec(t, ExprCode(PostStep(inc, x)), s) == Pushed(s, Eval(t, PostStep(inc, x), s.mem))
  {
    var a := x.addr;
    var c2 := Bumping(inc, a) + ([OP_ST_DWORD] + [OP_POP]);
    assert [OP_ST_DWORD] + [OP_POP] == [OP_ST_DWORD, OP_POP];
    assert ExprCode(PostStep(inc, x)) == LdValue(a) + (LdDword(a) + c2);
    hide Bumping, LdDword, LdValue, LoadDword;
    RunLdValue(t, a, s);
    ExecAppend(t, LdValue(a), LdDword(a) + c2, s);
    hide Exec, StoreDword;
    if LoadDword(s.mem, a).Some? {
      var s1 := State(s.stack + [LoadDword(s.mem, a).value], s.mem);
      var s2 := State(s1.stack + [a], s.mem);
      RunLdDword(t, a, s1);
      ExecAppend(t, LdDword(a), c2, s1);
      RunBumping(t, inc, a, s2);
      ExecAppend(t, Bumping(inc, a), [OP_ST_DWORD] + [OP_POP], s2);
      var w := t.alu(StepOp(inc), LoadDword(s.mem, a).value, 1);
      if w.Some? {
        RunStore(t, s1, a, w.value);
        ExecAppend(t, [OP_ST_DWORD], [OP_POP], State(s2.stack + [w.value], s.mem));
        var m := StoreDword(s.mem, a, w.value);
        if m.Some? { RunPop(t, State(s1.stack, m.value), a); }
      }
    }
  }

  /** Running the code of `e` and then `rest`, given how the code of `e` runs. */
  lemma {:induction false} RunThen(t: Target, e: Expr, rest: seq<Byte>, s: State)
    requires Exec(t, ExprCode(e), s) == Pushed(s, Eval(t, e, s.mem))
    ensures Exec(t, ExprCode(e) + rest, s)
         == (match Eval(t, e, s.mem) case None => Trap case Some((v, m)) => Exec(t, rest, State(s.stack + [v], m)))
  {
    ExecAppend(t, ExprCode(e), rest, s);
  }

  /**
   From any stack with room, the code of a typed expression pushes its value and makes its stores,
   leaving the cells below alone; it traps exactly when the expression has no value.
   */
  lemma {:induction false} RunExpr(t: Target, e: Expr, s: State)
    requires Typed(e) && |s.stack| + Depth(e) <= FINSH_STACK_MAX
    ensures Exec(t, ExprCode(e), s) == Pushed(s, Eval(t, e, s.mem))
    decreases e
  {
    hide Exec, LdDword, LdValue, LoadDword, StoreDword, Bumping, StoreReload, BinBase, Fetch, Assign, Bump;
    match e
    case Lit(_, w) => RunLdDword(t, w, s);
    case Var(x) => RunLdValue(t, x.addr, s);
    case System(x, _) => RunLdValue(t, x.addr, s);
    case AddressOf(x) => RunLdDword(t, x.addr, s);
    case AddressAt(e1) => RunExpr(t, e1, s);
    case PreStep(inc, x) => RunPreStep(t, inc, x, s);
    case PostStep(inc, x) => RunPostStep(t, inc, x, s);
    case Not(e1) =>
      RunExpr(t, e1, s);
      RunThen(t, e1, [OP_BITWISE_DWORD], s);
      if Eval(t, e1, s.mem).Some? {
        var (v, m) := Eval(t, e1, s.mem).value;
        RunNot(t, State(s.stack, m), v);
      }
    case Deref(e1) =>
      RunExpr(t, e1, s);
      RunThen(t, e1, [OP_LD_VALUE_DWORD_STACK], s);
      if Eval(t, e1, s.mem).Some? {
        var (a, m) := Eval(t, e1, s.mem).value;
        RunDeref(t, State(s.stack, m), a);
      }
    case Bin(op, left, right) =>
      RunTwo(t, left, right, [BinBase(op) + 2], s);
      RunExpr(t, left, s);
      if Eval(t, left, s.mem).Some? {
        var (a, m1) := Eval(t, left, s.mem).value;
        RunExpr(t, right, State(s.stack + [a], m1));
        if Eval(t, right, m1).Some? {
          var (b, m2) := Eval(t, right, m1).value;
          RunBin(t, op, State(s.stack, m2), a, b);
        }
      }
    case AssignAt(p, e1) =>
      RunTwo(t, p, e1, StoreReload, s);
      RunExpr(t, p, s);
      if Eval(t, p, s.mem).Some? {
        var (a, m1) := Eval(t, p, s.mem).value;
        RunExpr(t, e1, State(s.stack + [a], m1));
        if Eval(t, e1, m1).Some? {
          var (v, m2) := Eval(t, e1, m1).value;
          RunStoreReload(t, State(s.stack, m2), a, v);
        }
      }
    case AssignVar(x, e1) =>
      RunTwo(t, AddressOf(x), e1, StoreReload, s);
      RunLdDword(t, x.addr, s);
      RunExpr(t, e1, State(s.stack + [x.addr], s.mem));
      if Eval(t, e1, s.mem).Some? {
        var (v, m2) := Eval(t, e1, s.mem).value;
        RunStoreReload(t, State(s.stack, m2), x.addr, v);
      }
    case Call(f, args) =>
      var s1 := State(s.stack + [f], s.mem);
      var call := [OP_SYSCALL, Count(args) % 0x100];
      RunLdDword(t, f, s);
      ExecAppend(t, LdDword(f), ArgsCode(args) + call, s);
      assert ExprCode(e) == LdDword(f) + (ArgsCode(args) + call);
      RunArgs(t, args, s1);
      ExecAppend(t, ArgsCode(args), call, s1);
      if EvalArgs(t, args, s.mem).Some? {
        var (vs, m) := EvalArgs(t, args, s.mem).value;
        RunCall(t, State(s.stack, m), f, vs);
      }
  }

  /** Two operands followed by `rest`, when both operands run as they should. */
  lemma RunTwo(t: Target, a: Expr, b: Expr, rest: seq<Byte>, s: State)
    ensures Exec(t, ExprCode(a), s) == Pushed(s, Eval(t, a, s.mem)) ==>
      match Eval(t, a, s.mem)
      case None => Exec(t, ExprCode(a) + ExprCode(b) + rest, s) == Trap
      case Some((v, m)) =>
        var s1 := State(s.stack + [v], m);
        Exec(t, ExprCode(b), s1) == Pushed(s1, Eval(t, b, m)) ==>
        match Eval(t, b, m)
        case None => Exec(t, ExprCode(a) + ExprCode(b) + rest, s) == Trap
        case Some((w, m2)) =>
          Exec(t, ExprCode(a) + ExprCode(b) + rest, s) == Exec(t, rest, State(s1.stack + [w], m2))
  {
    hide Exec;
    assert ExprCode(a) + ExprCode(b) + rest == ExprCode(a) + (ExprCode(b) + rest);
    ExecAppend(t, ExprCode(a), ExprCode(b) + rest, s);
    if Eval(t, a, s.mem).Some? {
      var (v, m) := Eval(t, a, s.mem).value;
      ExecAppend(t, ExprCode(b), rest, State(s.stack + [v], m));
    }
  }

  lemma {:induction false} RunArgs(t: Target, args: Args, s: State)
    requires TypedArgs(args) && |s.stack| + DepthArgs(args) <= FINSH_STACK_MAX
    ensures Exec(t, ArgsCode(args), s)
         == (match EvalArgs(t, args, s.mem) case None => Trap case Some((vs, m)) => Done(State(s.stack + vs, m)))
    decreases args
  {
    hide Exec, Eval, ExprCode, Depth, Typed, Step;
    match args
    case NoArgs =>
      RunNothing(t, s);
      assert s.stack + [] == s.stack;
    case Arg(head, tail) =>
      RunExpr(t, head, s);
      ExecAppend(t, ExprCode(head), ArgsCode(tail), s);
      if Eval(t, head, s.mem).Some? {
        var (v, m) := Eval(t, head, s.mem).value;
        RunArgs(t, tail, State(s.stack + [v], m));
        if EvalArgs(t, tail, m).Some? {
          assert s.stack + [v] + EvalArgs(t, tail, m).value.0 == s.stack + ([v] + EvalArgs(t, tail, m).value.0);
        }
      }
  }

  lemma RunNothing(t: Target, s: State)
    ensures Exec(t, [], s) == Done(s)
  {
  }
}
