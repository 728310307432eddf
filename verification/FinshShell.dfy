/** The shell's global buffers: the emitter that fills the text segment, and the stack machine. */
module FinshShell {
  import opened Common
  import opened FinshTree
  import opened FinshCode
  import opened FinshVm
  import opened FinshCorrect
  import opened FinshProgram
  import opened FinshNodes

  /** `text` with `code` written at `pc`. */
  function Emit(text: seq<Byte>, pc: nat, code: seq<Byte>): (r: seq<Byte>)
    requires pc + |code| <= |text|
    ensures |r| == |text|
  {
    text[..pc] + code + text[pc + |code|..]
  }

  lemma EmitTwice(text: seq<Byte>, pc: nat, c1: seq<Byte>, c2: seq<Byte>)
    requires pc + |c1| + |c2| <= |text|
    ensures Emit(Emit(text, pc, c1), pc + |c1|, c2) == Emit(text, pc, c1 + c2)
  {
    var t1 := Emit(text, pc, c1);
    assert t1[..pc + |c1|] == text[..pc] + c1;
    assert t1[pc + |c1| + |c2|..] == text[pc + |c1| + |c2|..];
  }

  lemma EmitNothing(text: seq<Byte>, pc: nat)
    requires pc <= |text|
    ensures Emit(text, pc, []) == text
  {
  }

  class Shell {
    const text: array<Byte>
    const stack: array<Word>
    const target: Target
    var compilePc: nat
    var sp: nat
    var pc: nat
    var mem: Mem

    ghost predicate Valid()
      reads this
    {
      text.Length == FINSH_TEXT_MAX && stack.Length == FINSH_STACK_MAX && compilePc <= text.Length && sp <= stack.Length
    }

    constructor (target: Target, mem: Mem)
      ensures Valid() && this.target == target && this.mem == mem && compilePc == 0 && fresh(text) && fresh(stack)
    {
      this.target, this.mem := target, mem;
      text := new Byte[FINSH_TEXT_MAX](_ => 0);
      stack := new Word[FINSH_STACK_MAX](_ => 0);
      compilePc, sp, pc := 0, 0, 0;
    }

    /** finsh_code_byte */
    method EmitByte(b: Byte)
      requires Valid() && compilePc < text.Length
      modifies this`compilePc, text
      ensures Valid() && compilePc == old(compilePc) + 1
      ensures text[..] == Emit(old(text[..]), old(compilePc), [b])
    {
      text[compilePc] := b;
      compilePc := compilePc + 1;
    }

    /** finsh_code_dword */
    method EmitDword(v: Word)
      requires Valid() && compilePc + 4 <= text.Length
      modifies this`compilePc, text
      ensures Valid() && compilePc == old(compilePc) + 4
      ensures text[..] == Emit(old(text[..]), old(compilePc), Bytes4(v))
    {
      ghost var before := text[..];
      text[compilePc] := v % 0x100;
      text[compilePc + 1] := v / 0x100 % 0x100;
      text[compilePc + 2] := v / 0x1_0000 % 0x100;
      text[compilePc + 3] := v / 0x100_0000;
      compilePc := compilePc + 4;
      assert text[..] == Emit(before, old(compilePc), Bytes4(v));
    }

    /** Emits a fixed run of bytes. */
    method EmitBytes(code: seq<Byte>)
      requires Valid() && compilePc + |code| <= text.Length
      modifies this`compilePc, text
      ensures Valid() && compilePc == old(compilePc) + |code|
      ensures text[..] == Emit(old(text[..]), old(compilePc), code)
    {
      ghost var before := text[..];
      var start := compilePc;
      for i := 0 to |code|
        invariant Valid() && compilePc == start + i
        invariant text[..] == Emit(before, start, code[..i])
      {
        EmitTwice(before, start, code[..i], [code[i]]);
        EmitByte(code[i]);
        assert code[..i + 1] == code[..i] + [code[i]];
      }
      assert code[..|code|] == code;
    }

    /** The number of siblings after `first`, as the call code counts parameters. */
    method CountSiblings(first: FinshNode?) returns (n: nat)
      requires ValidRef(first)
      ensures n == Siblings(TreeOf(first))
    {
      n := 0;
      var sibling := first;
      while sibling != null
        invariant ValidRef(sibling)
        invariant n + Siblings(TreeOf(sibling)) == Siblings(TreeOf(first))
        decreases Nodes(sibling)
      {
        n := n + 1;
        sibling := sibling.sibling;
      }
    }

    /** `finsh_compile`: children first, then the node, then its siblings. */
    method Compile(node: FinshNode?)
      requires Valid() && ValidRef(node) && compilePc + |Code(TreeOf(node))| <= text.Length
      modifies this`compilePc, text
      ensures Valid() && compilePc == old(compilePc) + |Code(TreeOf(node))|
      ensures text[..] == Emit(old(text[..]), old(compilePc), Code(TreeOf(node)))
      decreases Nodes(node)
    {
      hide OwnCode, Emit;
      EmitNothing(text[..], compilePc);
      ghost var before, start := text[..], compilePc;
      if node != null {
        ghost var c1, c3 := Code(TreeOf(node.child)), Code(TreeOf(node.sibling));
        ghost var c2 := OwnCode(node.info, TreeOf(node.child));
        assert Code(TreeOf(node)) == c1 + c2 + c3;
        Compile(node.child);
        EmitTwice(before, start, c1, c2);
        CompileNode(node);
        EmitTwice(before, start, c1 + c2, c3);
        Compile(node.sibling);
      }
    }

    /** What `finsh_compile` reads of the first child, and how many parameters a call has. */
    method CompileNode(node: FinshNode)
      requires Valid() && node.Valid()
      requires compilePc + |OwnCode(node.info, TreeOf(node.child))| <= text.Length
      modifies this`compilePc, text
      ensures Valid() && compilePc == old(compilePc) + |OwnCode(node.info, TreeOf(node.child))|
      ensures text[..] == Emit(old(text[..]), old(compilePc), OwnCode(node.info, TreeOf(node.child)))
    {
      hide OwnCode, Emit;
      ghost var tree := TreeOf(node.child);
      ChildTree(node);
      var count := 0;
      if node.info.kind.SysFunc? && node.child != null {
        count := CountSiblings(node.child.sibling);
      }
      EmitNode(node.info, if node.child == null then None else Some(node.child.info), count, tree);
      assert TreeOf(node.child) == tree;
    }

    /** The switch of `finsh_compile` on the node itself. */
    method EmitNode(n: Info, child: Option<Info>, count: nat, ghost tree: Tree)
      requires Valid() && compilePc + |OwnCode(n, tree)| <= text.Length
      requires child.Some? == tree.Node? && (tree.Node? ==> tree.info == child.value)
      requires n.kind.SysFunc? && tree.Node? ==> count == Siblings(tree.sibling)
      modifies this`compilePc, text
      ensures Valid() && compilePc == old(compilePc) + |OwnCode(n, tree)|
      ensures text[..] == Emit(old(text[..]), old(compilePc), OwnCode(n, tree))
    {
      hide Bytes4, Emit, IdCode, Sized, PreStepCode, PostStepCode, Siblings;
      EmitNothing(text[..], compilePc);
      match n.kind
      case Id(symbol) => EmitBytes(IdCode(symbol, n.idtype.address));
      case ValueChar(c) => EmitBytes([OP_LD_BYTE, c]);
      case ValueInt(w) => EmitConstant(w);
      case ValueLong(w) => EmitConstant(w);
      case ValueString(w) => EmitConstant(w);
      case ValueNull(w) => EmitConstant(w);
      case SysBin(op) => EmitBytes(Sized(BinBase(op), n.dtype));
      case SysBitwise => EmitBytes(Sized(OP_BITWISE_BYTE, n.dtype));
      case SysFunc =>
        if child.Some? { EmitBytes([OP_SYSCALL, count % 0x100]); }
      case SysAssign =>
        if child.Some? && (child.value.kind.Id? || child.value.kind.SysGetValue?) {
          EmitBytes(Sized(OP_ST_BYTE, child.value.dtype) + Sized(OP_LD_VALUE_BYTE_STACK, child.value.dtype));
        }
      case SysPreInc =>
        if child.Some? && child.value.kind.Id? { EmitBytes(PreStepCode(Add, AsVar(child.value.kind.symbol), n.dtype)); }
      case SysPreDec =>
        if child.Some? && child.value.kind.Id? { EmitBytes(PreStepCode(Sub, AsVar(child.value.kind.symbol), n.dtype)); }
      case SysInc =>
        if child.Some? && child.value.kind.Id? {
          EmitBytes(PostStepCode(Add, AsVar(child.value.kind.symbol), n.dtype));
        }
      case SysDec =>
        if child.Some? && child.value.kind.Id? {
          EmitBytes(PostStepCode(Sub, AsVar(child.value.kind.symbol), n.dtype));
        }
      case SysGetValue =>
        if !n.idtype.address { EmitBytes(Sized(OP_LD_VALUE_BYTE_STACK, n.dtype)); }
      case SysGetAddr =>
      case SysNull => EmitDword(0);
    }

    lemma ChildTree(node: FinshNode)
      requires node.Valid()
      ensures ValidRef(node.child) && TreeOf(node.child).Node? == (node.child != null)
      ensures node.child != null ==>
        var t := TreeOf(node.child);
        t.Node? && t.info == node.child.info && ValidRef(node.child.sibling) && t.sibling == TreeOf(node.child.sibling)
    {
    }

    method EmitConstant(w: Word)
      requires Valid() && compilePc + 5 <= text.Length
      modifies this`compilePc, text
      ensures Valid() && compilePc == old(compilePc) + 5
      ensures text[..] == Emit(old(text[..]), old(compilePc), [OP_LD_DWORD] + Bytes4(w))
    {
      EmitTwice(text[..], compilePc, [OP_LD_DWORD], Bytes4(w));
      EmitByte(OP_LD_DWORD);
      EmitDword(w);
    }

    /** `finsh_compiler_run`: attribute, clear the text, compile each expression apart with pops between. */
    method CompilerRun(node: FinshNode?)
      requires Valid() && ValidRef(node)
      requires |LineCode(TypeCheck(TreeOf(node), false))| <= text.Length
      modifies Nodes(node), this`compilePc, text, stack
      ensures Valid()
      ensures compilePc == |LineCode(TypeCheck(old(TreeOf(node)), false))|
      ensures text[..compilePc] == LineCode(TypeCheck(old(TreeOf(node)), false))
      ensures forall i :: compilePc <= i < text.Length ==> text[i] == OP_NOOP
    {
      hide Code, TypeCheck, Bytes4, Emit, TreeOf, FinshNode.Valid, FinshNode.AsTree;
      TypeCheckNodes(node, false);
      RefTree(node);
      ghost var all := LineCode(TreeOf(node));
      forall i | 0 <= i < text.Length { text[i] := 0; }
      stack[0] := 0;
      compilePc := 0;
      var sibling := node;
      while sibling != null
        invariant Valid() && ValidRef(sibling) && Nodes(sibling) <= old(Nodes(node))
        invariant sibling != null ==> sibling in Nodes(sibling)
        invariant TreeOf(sibling).Node? == (sibling != null)
        invariant text[..compilePc] + LineCode(TreeOf(sibling)) == all
        invariant forall i :: compilePc <= i < text.Length ==> text[i] == 0
        decreases Nodes(sibling)
      {
        sibling := CompileStatement(sibling);
      }
      assert text[..compilePc] == all;
    }

    /** One turn of the loop of `finsh_compiler_run`: cut the siblings off, compile, pop if more follows. */
    method CompileStatement(current: FinshNode) returns (sibling: FinshNode?)
      requires Valid() && current.Valid() && compilePc + |LineCode(TreeOf(current))| <= text.Length
      modifies current, this`compilePc, text
      ensures Valid() && ValidRef(sibling) && Nodes(sibling) < old(Nodes(current))
      ensures sibling != null ==> sibling in Nodes(sibling)
      ensures TreeOf(sibling).Node? == (sibling != null)
      ensures text[..compilePc] + LineCode(TreeOf(sibling)) == old(text[..compilePc] + LineCode(TreeOf(current)))
      ensures compilePc >= old(compilePc) && text[compilePc..] == old(text[..])[compilePc..]
    {
      hide Code, TypeCheck, Bytes4, Emit, TreeOf, FinshNode.Valid, FinshNode.AsTree;
      RefTree(current);
      sibling := current.sibling;
      ghost var tree := TreeOf(current);
      ghost var code := Code(Node(tree.info, tree.child, Null));
      ghost var before, start := text[..], compilePc;
      CutSibling(current);
      assert LineCode(tree) == code + (if sibling == null then [] else [OP_POP]) + LineCode(TreeOf(sibling));
      EmittedMore(before, start, code);
      Compile(current);
      ghost var more := text[..];
      assert more[..compilePc] == before[..start] + code;
      if sibling != null {
        EmittedMore(more, compilePc, [OP_POP]);
        EmitByte(OP_POP);
        assert text[..compilePc] == before[..start] + code + [OP_POP];
      }
    }

    lemma RefTree(node: FinshNode?)
      requires ValidRef(node)
      ensures TreeOf(node).Node? == (node != null) && (node != null ==> node in Nodes(node))
    {
    }

    lemma EmittedMore(text: seq<Byte>, pc: nat, code: seq<Byte>)
      requires pc + |code| <= |text|
      ensures Emit(text, pc, code)[..pc + |code|] == text[..pc] + code
      ensures Emit(text, pc, code)[pc + |code|..] == text[pc + |code|..]
    {
    }

    /** Unlinks a node from its siblings. */
    method CutSibling(current: FinshNode)
      requires current.Valid()
      modifies current
      ensures current.Valid() && Nodes(current) <= old(Nodes(current))
      ensures old(TreeOf(current)).Node?
      ensures old(current.sibling) != null ==> old(current.sibling) in Nodes(old(current.sibling))
      ensures TreeOf(old(current.sibling)).Node? == (old(current.sibling) != null)
      ensures Nodes(old(current.sibling)) < old(Nodes(current)) && Nodes(current) !! old(Nodes(current.sibling))
      ensures ValidRef(old(current.sibling)) && Nodes(old(current.sibling)) == old(Nodes(current.sibling))
      ensures TreeOf(old(current.sibling)) == old(TreeOf(current)).sibling
      ensures TreeOf(current) == Node(old(TreeOf(current)).info, old(TreeOf(current)).child, Null)
    {
      ghost var child := TreeOf(current.child);
      ghost var sibling := TreeOf(current.sibling);
      var s := current.sibling;
      current.sibling := null;
      current.Repr := {current} + Nodes(current.child);
      assert ValidRef(current.child) && TreeOf(current.child) == child;
      assert ValidRef(s) && TreeOf(s) == sibling;
    }

    ghost function Machine(): State
      requires Valid()
      reads this, stack
    {
      State(stack[..sp], mem)
    }

    /** FINSH_GET32 at the program counter. */
    method ReadDword() returns (v: Word)
      requires pc + 4 <= text.Length
      ensures v == Word4(text[pc], text[pc + 1], text[pc + 2], text[pc + 3])
    {
      var b0: int, b1: int, b2: int, b3: int := text[pc], text[pc + 1], text[pc + 2], text[pc + 3];
      v := b0 + 0x100 * b1 + 0x1_0000 * b2 + 0x100_0000 * b3;
    }

    /** Writes the cell at the stack pointer and moves it up. */
    method PushCell(v: Word) returns (ok: bool)
      requires Valid()
      modifies this`sp, stack
      ensures Valid() && ok == (old(sp) < FINSH_STACK_MAX)
      ensures ok ==> Machine() == State(old(stack[..sp]) + [v], mem)
    {
      ok := sp < stack.Length;
      if ok {
        stack[sp] := v;
        sp := sp + 1;
      }
    }

    /** Replaces the top cell. */
    method SetTop(v: Word)
      requires Valid() && sp >= 1
      modifies stack
      ensures Valid() && Machine() == State(old(stack[..sp - 1]) + [v], mem)
    {
      stack[sp - 1] := v;
    }

    /** OP_BIN_DWORD */
    method BinDword(op: BinOp) returns (ok: bool)
      requires Valid()
      modifies this`sp, stack
      ensures Valid() && ok == StepBin(target, op, old(Machine())).Next?
      ensures ok ==> Machine() == StepBin(target, op, old(Machine())).state
    {
      ok := false;
      if sp >= 2 {
        var r := target.alu(op, stack[sp - 2], stack[sp - 1]);
        if r.Some? {
          ghost var s := Machine();
          stack[sp - 2] := r.value;
          sp := sp - 1;
          ok := true;
          assert Machine().stack == s.stack[..|s.stack| - 2] + [r.value];
        }
      }
    }

    /** OP_st_dword */
    method StoreTop() returns (ok: bool)
      requires Valid()
      modifies this`sp, this`mem
      ensures Valid() && ok == StepStore(old(Machine())).Next?
      ensures ok ==> Machine() == StepStore(old(Machine())).state
    {
      ok := false;
      if sp >= 2 {
        var m := StoreDword(mem, stack[sp - 2], stack[sp - 1]);
        if m.Some? {
          mem := m.value;
          sp := sp - 1;
          ok := true;
        }
      }
    }

    /** OP_call: the parameters are popped from the last to the first. */
    method CallTop(count: nat) returns (ok: bool)
      requires Valid()
      modifies this`sp, this`mem, stack
      ensures Valid() && ok == StepCall(target, count, old(Machine())).Next?
      ensures ok ==> Machine() == StepCall(target, count, old(Machine())).state
    {
      if sp < count + 1 || count > 16 { return false; }
      ghost var s := Machine();
      var i, args := 0, [];
      sp := sp - 1;
      while i < count
        invariant 0 <= i <= count && sp == |s.stack| - 1 - i && Valid()
        invariant stack[..|s.stack|] == s.stack && mem == s.mem
        invariant args == s.stack[|s.stack| - i..]
      {
        args := [stack[sp]] + args;
        sp := sp - 1;
        i := i + 1;
      }
      var (r, m) := target.sys(stack[sp], args, mem);
      mem := m;
      stack[sp] := r;
      sp := sp + 1;
      assert Machine().stack == s.stack[..|s.stack| - count - 1] + [r];
      ok := true;
    }

    /** One turn of the loop of `finsh_vm_run`: fetch an opcode and dispatch it. */
    method StepOnce() returns (ok: bool)
      requires Valid() && pc < text.Length
      modifies this`sp, this`pc, this`mem, stack
      ensures Valid() && ok == Step(target, old(text[pc..]), old(Machine())).Next?
      ensures ok ==> var r := Step(target, old(text[pc..]), old(Machine()));
                     Machine() == r.state && pc == old(pc) + r.length && r.length > 0
    {
      hide LoadDword, StoreDword, Word4;
      ghost var code := text[pc..];
      ghost var s := Machine();
      var op := text[pc];
      pc := pc + 1;
      ok := true;
      if op == OP_NOOP {
      } else if BinOpOf(op).Some? {
        ok := BinDword(BinOpOf(op).value);
      } else if op == OP_BITWISE_DWORD {
        ok := sp >= 1;
        if ok { SetTop(0xffff_ffff - stack[sp - 1]); }
      } else if op == OP_LD_DWORD || op == OP_LD_VALUE_DWORD {
        if pc + 4 > text.Length { return false; }
        var v := ReadDword();
        assert v == Operand(code);
        if op == OP_LD_VALUE_DWORD {
          var r := LoadDword(mem, v);
          if r.None? { return false; }
          v := r.value;
        }
        ok := PushCell(v);
        pc := pc + 4;
      } else if op == OP_LD_VALUE_DWORD_STACK {
        if sp < 1 { return false; }
        var r := LoadDword(mem, stack[sp - 1]);
        if r.None? { return false; }
        SetTop(r.value);
      } else if op == OP_ST_DWORD {
        ok := StoreTop();
      } else if op == OP_POP {
        ok := sp >= 1;
        if ok { sp := sp - 1; }
      } else if op == OP_SYSCALL {
        if pc >= text.Length { return false; }
        var count := text[pc];
        pc := pc + 1;
        ok := CallTop(count);
      } else {
        ok := false;
      }
    }

    /** `finsh_vm_run`: from an empty stack and the start of the text to its end; false on a trap. */
    method VmRun() returns (ok: bool)
      requires Valid()
      modifies this`sp, this`pc, this`mem, stack
      ensures Valid()
      ensures ok == Exec(target, text[..], State([], old(mem))).Done?
      ensures ok ==> Machine() == Exec(target, text[..], State([], old(mem))).state
    {
      hide Step;
      sp, pc := 0, 0;
      assert text[0..] == text[..] && Machine() == State([], mem);
      while pc < text.Length
        invariant Valid() && pc <= text.Length
        invariant Exec(target, text[pc..], Machine()) == Exec(target, text[..], State([], old(mem)))
        decreases text.Length - pc
      {
        label turn:
        ghost var r := Step(target, text[pc..], Machine());
        ok := StepOnce();
        if !ok { return; }
        if pc > text.Length { return false; }
        assert old@turn(text[pc..])[r.length..] == text[pc..];
      }
      assert text[pc..] == [];
      ok := true;
    }

    /**
     Compiling a line of typed expressions and running it leaves exactly the line's value on the
     stack and exactly its stores in memory; the run fails exactly when the line has no value.
     */
    method RunLineOnShell(node: FinshNode, ghost es: seq<Expr>) returns (ok: bool)
      requires Valid() && node.Valid() && es != [] && TypedLine(es) && TreeOf(node) == LineTree(es)
      requires |LineCode(TypeCheck(LineTree(es), false))| <= FINSH_TEXT_MAX
      modifies node.Repr, this, text, stack
      ensures Valid() && ok == EvalLine(target, es, old(mem)).Some?
      ensures ok ==> sp == 1 && (stack[0], mem) == EvalLine(target, es, old(mem)).value
    {
      hide Exec, LineCode, TypeCheck, LineTree, EvalLine;
      CompilerRun(node);
      ghost var padding := text[compilePc..];
      assert text[..] == text[..compilePc] + padding;
      RunLine(target, es, mem, padding);
      ok := VmRun();
      if ok { assert |Machine().stack| == 1 && Machine().stack[0] == stack[0]; }
    }
  }
}
