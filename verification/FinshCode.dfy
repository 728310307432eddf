/** Byte code: encoding of dwords, opcodes, and what `finsh_compile` emits for a tree. */
module FinshCode {
  import opened Common
  import opened FinshTree

  const OP_NOOP: Byte := 0x00
  const OP_ADD_BYTE: Byte := 0x01
  const OP_SUB_BYTE: Byte := 0x04
  const OP_DIV_BYTE: Byte := 0x07
  const OP_MOD_BYTE: Byte := 0x0A
  const OP_MUL_BYTE: Byte := 0x0D
  const OP_AND_BYTE: Byte := 0x10
  const OP_OR_BYTE: Byte := 0x13
  const OP_XOR_BYTE: Byte := 0x16
  const OP_BITWISE_BYTE: Byte := 0x19
  const OP_SHL_BYTE: Byte := 0x1C
  const OP_SHR_BYTE: Byte := 0x1F
  const OP_LD_BYTE: Byte := 0x22
  const OP_LD_DWORD: Byte := 0x24
  const OP_LD_VALUE_BYTE: Byte := 0x25
  const OP_LD_VALUE_DWORD: Byte := 0x27
  const OP_ST_BYTE: Byte := 0x28
  const OP_ST_DWORD: Byte := 0x2A
  const OP_POP: Byte := 0x2B
  const OP_SYSCALL: Byte := 0x2C
  const OP_LD_VALUE_BYTE_STACK: Byte := 0x2D
  const OP_LD_VALUE_DWORD_STACK: Byte := 0x2F
  const OP_BITWISE_DWORD: Byte := 0x1B

  const FINSH_TEXT_MAX := 128
  const FINSH_STACK_MAX := 64

  /** FINSH_SET32: the four bytes of a dword, least significant first. */
  function Bytes4(v: Word): (b: seq<Byte>)
    ensures |b| == 4
  {
    [v % 0x100, v / 0x100 % 0x100, v / 0x1_0000 % 0x100, v / 0x100_0000]
  }

  /** FINSH_GET32. */
  function Word4(b0: Byte, b1: Byte, b2: Byte, b3: Byte): Word {
    b0 + 0x100 * b1 + 0x1_0000 * b2 + 0x100_0000 * b3
  }

  lemma DwordRoundTrip(v: Word)
    ensures Word4(Bytes4(v)[0], Bytes4(v)[1], Bytes4(v)[2], Bytes4(v)[3]) == v
  {
    assert v / 0x1_0000 == v / 0x100 / 0x100 && v / 0x100_0000 == v / 0x1_0000 / 0x100;
  }

  /** Least significant byte first. */
  lemma LittleEndian(v: Word)
    ensures var b: seq<int> := Bytes4(v); v == b[0] + 0x100 * b[1] + 0x1_0000 * b[2] + 0x100_0000 * b[3]
  {
    DwordRoundTrip(v);
  }

  /** Every operator has three opcodes in a row: byte, word, dword. */
  function BinBase(op: BinOp): (b: Byte)
    ensures OP_ADD_BYTE <= b <= OP_SHR_BYTE
  {
    match op
    case Add => OP_ADD_BYTE case Sub => OP_SUB_BYTE case Mul => OP_MUL_BYTE
    case Div => OP_DIV_BYTE case Mod => OP_MOD_BYTE case And => OP_AND_BYTE
    case Or => OP_OR_BYTE case Xor => OP_XOR_BYTE case Shl => OP_SHL_BYTE case Shr => OP_SHR_BYTE
  }

  function Width(base: Byte, d: DataType): Byte
    requires base <= OP_LD_VALUE_DWORD_STACK
  {
    match d
    case DtByte => base
    case DtWord => base + 1
    case _ => base + 2
  }

  /** An operator's single byte; a node typed void emits nothing. */
  function Sized(base: Byte, d: DataType): seq<Byte>
    requires base <= OP_LD_VALUE_DWORD_STACK
  {
    if d.DtVoid? then [] else [Width(base, d)]
  }

  function One(d: DataType): seq<Byte> {
    match d
    case DtByte => [1]
    case DtWord => [1, 0]
    case _ => Bytes4(1)
  }

  /** Load of an identifier: its address or its value; no code for `void` and `void *` variables. */
  function IdCode(symbol: Symbol, address: bool): seq<Byte> {
    match symbol
    case SysCall(func) => [OP_LD_DWORD] + Bytes4(func)
    case _ =>
      if symbol.vtype.TVoid? || symbol.vtype.TVoidP? then []
      else [if address then OP_LD_DWORD else Width(OP_LD_VALUE_BYTE, VarDataType(symbol.vtype))]
           + Bytes4(symbol.addr)
  }

  function AsVar(symbol: Symbol): Word {
    match symbol
    case UserVar(_, addr) => addr
    case SysVar(_, _, asVar) => asVar
    case SysCall(func) => func
  }

  /** Prefix ++ and --: the operand's address is already on the stack. */
  function PreStepCode(op: BinOp, a: Word, d: DataType): seq<Byte> {
    if d.DtVoid? then [] else
      [Width(OP_LD_VALUE_BYTE, d)] + Bytes4(a) + [Width(OP_LD_BYTE, d)] + One(d)
      + [Width(BinBase(op), d), Width(OP_ST_BYTE, d), OP_LD_VALUE_DWORD_STACK]
  }

  /** Postfix ++ and --: the operand's old value is already on the stack. */
  function PostStepCode(op: BinOp, a: Word, d: DataType): seq<Byte> {
    if d.DtVoid? then [] else
      [OP_LD_DWORD] + Bytes4(a) + [Width(OP_LD_VALUE_BYTE, d)] + Bytes4(a)
      + [Width(OP_LD_BYTE, d)] + One(d) + [Width(BinBase(op), d), Width(OP_ST_BYTE, d), OP_POP]
  }

  function Siblings(t: Tree): nat {
    if t.Null? then 0 else 1 + Siblings(t.sibling)
  }

  /** What the switch of `finsh_compile` emits for the node itself, after its child. */
  function OwnCode(n: Info, child: Tree): seq<Byte> {
    match n.kind
    case Id(symbol) => IdCode(symbol, n.idtype.address)
    case ValueChar(c) => [OP_LD_BYTE, c]
    case ValueInt(w) => [OP_LD_DWORD] + Bytes4(w)
    case ValueLong(w) => [OP_LD_DWORD] + Bytes4(w)
    case ValueString(w) => [OP_LD_DWORD] + Bytes4(w)
    case ValueNull(w) => [OP_LD_DWORD] + Bytes4(w)
    case SysBin(op) => Sized(BinBase(op), n.dtype)
    case SysBitwise => Sized(OP_BITWISE_BYTE, n.dtype)
    case SysFunc =>
      if child.Null? then [] else [OP_SYSCALL, Siblings(child.sibling) % 0x100]
    case SysAssign =>
      if child.Node? && (child.info.kind.Id? || child.info.kind.SysGetValue?)
      then Sized(OP_ST_BYTE, child.info.dtype) + Sized(OP_LD_VALUE_BYTE_STACK, child.info.dtype)
      else []
    case SysPreInc =>
      if child.Node? && child.info.kind.Id? then PreStepCode(Add, AsVar(child.info.kind.symbol), n.dtype) else []
    case SysPreDec =>
      if child.Node? && child.info.kind.Id? then PreStepCode(Sub, AsVar(child.info.kind.symbol), n.dtype) else []
    case SysInc =>
      if child.Node? && child.info.kind.Id? then PostStepCode(Add, AsVar(child.info.kind.symbol), n.dtype) else []
    case SysDec =>
      if child.Node? && child.info.kind.Id? then PostStepCode(Sub, AsVar(child.info.kind.symbol), n.dtype) else []
    case SysGetValue => if n.idtype.address then [] else Sized(OP_LD_VALUE_BYTE_STACK, n.dtype)
    case SysGetAddr => []
    case SysNull => Bytes4(0)
  }

  /** `finsh_compile`: child first, then the node, then its siblings. */
  function Code(t: Tree): seq<Byte> {
    match t
    case Null => []
    case Node(n, child, sibling) => Code(child) + OwnCode(n, child) + Code(sibling)
  }
}
