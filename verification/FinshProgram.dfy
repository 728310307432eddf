/** Whole inputs of the shell: expressions separated by `;`, compiled by `finsh_compiler_run`. */
module FinshProgram {
  import opened Common
  import opened FinshTree
  import opened FinshCode
  import opened FinshVm
  import opened FinshCorrect

  /** The parser links the expressions of one line as siblings. */
  function LineTree(es: seq<Expr>): Tree {
    if es == [] then Null else ToTree(es[0], LineTree(es[1..]))
  }

  /** The code of a chain of expressions: each alone, with a pop between one and the next. */
  function LineCode(t: Tree): seq<Byte> {
    match t
    case Null => []
    case Node(n, child, sibling) =>
      Code(Node(n, child, Null)) + (if sibling.Null? then [] else [OP_POP]) + LineCode(sibling)
  }

  /** The line's value is that of its last expression; stores happen in order. */
  function EvalLine(t: Target, es: seq<Expr>, m: Mem): Option<(Word, Mem)>
    requires es != []
  {
    match Eval(t, es[0], m)
    case None => None
    case Some((v, m1)) => if |es| == 1 then Some((v, m1)) else EvalLine(t, es[1..], m1)
  }

  ghost predicate TypedLine(es: seq<Expr>) {
    forall e :: e in es ==> Typed(e) && Depth(e) <= FINSH_STACK_MAX
  }

  lemma HeadAlone(e: Expr, sibling: Tree)
    requires Typed(e)
    ensures var t := TypeCheck(ToTree(e, sibling), false);
            && t.Node? && t.sibling == TypeCheck(sibling, false)
            && Code(Node(t.info, t.child, Null)) == ExprCode(e)
  {
    hide Typed, ExprCode, TypeCheck;
    SiblingApart(e, sibling);
    CodeOfExpr(e, Null);
    EmptyTree();
  }

  /** Cutting the siblings off before or after the attribute pass gives the same node. */
  lemma SiblingApart(e: Expr, sibling: Tree)
    ensures var t := TypeCheck(ToTree(e, sibling), false);
            && t.Node? && t.sibling == TypeCheck(sibling, false)
            && Node(t.info, t.child, Null) == TypeCheck(ToTree(e, Null), false)
  {
    var whole, alone := ToTree(e, sibling), ToTree(e, Null);
    assert whole.info == alone.info && whole.child == alone.child && whole.sibling == sibling && alone.sibling == Null;
    hide ToTree;
  }

  /** The line's code, run on an empty stack: its value alone on the stack, all stores made, or a trap. */
  lemma {:induction false} RunLine(t: Target, es: seq<Expr>, m: Mem, padding: seq<Byte>)
    requires es != [] && TypedLine(es)
    requires forall i :: 0 <= i < |padding| ==> padding[i] == OP_NOOP
    ensures Exec(t, LineCode(TypeCheck(LineTree(es), false)) + padding, State([], m))
         == Pushed(State([], m), EvalLine(t, es, m))
    decreases |es|
  {
    hide Exec, Eval, ToTree, Code, TypeCheck, ExprCode, Typed, Depth;
    var e, s := es[0], State([], m);
    var line := TypeCheck(LineTree(es), false);
    HeadAlone(e, LineTree(es[1..]));
    RunExpr(t, e, s);
    if |es| == 1 {
      EmptyTree();
      assert LineCode(line) + padding == ExprCode(e) + padding;
      RunThen(t, e, padding, s);
      if Eval(t, e, m).Some? {
        var (v, m1) := Eval(t, e, m).value;
        ExecNoops(t, padding, State(s.stack + [v], m1));
      }
    } else {
      var rest := LineCode(line.sibling) + padding;
      LineNotEmpty(es[1..]);
      assert LineCode(line) + padding == ExprCode(e) + ([OP_POP] + rest);
      RunThen(t, e, [OP_POP] + rest, s);
      if Eval(t, e, m).Some? {
        var (v, m1) := Eval(t, e, m).value;
        assert s.stack + [v] == [v];
        RunPop(t, State([], m1), v);
        ExecAppend(t, [OP_POP], rest, State([v], m1));
        RunLine(t, es[1..], m1, padding);
      }
    }
  }

  lemma LineNotEmpty(es: seq<Expr>)
    requires es != []
    ensures TypeCheck(LineTree(es), false).Node?
  {
    SiblingApart(es[0], LineTree(es[1..]));
  }
}
