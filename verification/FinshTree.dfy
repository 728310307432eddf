/**
 The finsh syntax tree: first-child / next-sibling nodes as the parser builds them, the machine
 words stored in them, and the attribute pass `finsh_type_check`.
 */
module FinshTree {
  import opened Common

  /** `u_char`, and the bits of a 32-bit `long` or pointer. */
  type Byte = x: int | 0 <= x < 0x100
  type Word = x: int | 0 <= x < 0x1_0000_0000

  /** The C types a finsh or system variable can have. */
  datatype VarType =
    | TVoid | TVoidP
    | TChar | TUChar | TShort | TUShort
    | TInt | TUInt | TLong | TULong
    | TCharP | TShortP | TIntP | TLongP

  datatype DataType = DtVoid | DtByte | DtWord | DtDword

  /**
   What an identifier node points to.  `asVar` is the address that results from reading the
   symbol as a finsh variable, which is what the increment code does with every symbol.
   */
  datatype Symbol =
    | UserVar(vtype: VarType, addr: Word)
    | SysVar(vtype: VarType, addr: Word, asVar: Word)
    | SysCall(func: Word)

  datatype BinOp = Add | Sub | Mul | Div | Mod | And | Or | Xor | Shl | Shr

  datatype Kind =
    | Id(symbol: Symbol)
    | ValueChar(c: Byte)
    | ValueInt(w: Word) | ValueLong(w: Word) | ValueString(w: Word) | ValueNull(w: Word)
    | SysBin(op: BinOp)
    | SysBitwise
    | SysFunc
    | SysAssign
    | SysPreInc | SysPreDec | SysInc | SysDec
    | SysGetValue | SysGetAddr
    | SysNull

  /** The `idtype` bits: which table the symbol came from, and whether its address is wanted. */
  datatype IdBase = NoId | VarId | SysVarId | SysCallId
  datatype IdType = IdType(base: IdBase, address: bool)

  datatype Info = Info(kind: Kind, dtype: DataType, idtype: IdType)

  datatype Tree = Null | Node(info: Info, child: Tree, sibling: Tree)

  function VarDataType(t: VarType): DataType {
    match t
    case TVoid => DtVoid
    case TChar | TUChar => DtByte
    case TShort | TUShort => DtWord
    case _ => DtDword
  }

  /** Which address flag the attribute pass hands to the first child. */
  function ChildAddress(kind: Kind, isAddr: bool): bool {
    if kind.SysAssign? || kind.SysPreInc? || kind.SysPreDec? || kind.SysGetAddr? then true
    else if kind.SysGetValue? && isAddr then false
    else isAddr
  }

  /** The attributes a node gets once its child has been attributed. */
  function Decorate(n: Info, isAddr: bool, child: Tree): Info {
    var idtype := if n.idtype == IdType(SysCallId, false) then n.idtype
                  else n.idtype.(address := n.idtype.address || isAddr);
    var dtype :=
      if child.Node? then child.info.dtype
      else match n.kind
        case Id(symbol) =>
          if (idtype.base == VarId && symbol.UserVar?) || (idtype.base == SysVarId && symbol.SysVar?)
          then VarDataType(symbol.vtype) else n.dtype
        case ValueChar(_) => DtByte
        case ValueInt(_) => DtDword
        case ValueLong(_) => DtDword
        case ValueString(_) => DtDword
        case ValueNull(_) => DtDword
        case _ => n.dtype;
    Info(n.kind, dtype, idtype)
  }

  /** `finsh_type_check` as a function from trees to attributed trees. */
  function TypeCheck(t: Tree, isAddr: bool): Tree {
    match t
    case Null => Null
    case Node(n, child, sibling) =>
      var child' := TypeCheck(child, ChildAddress(n.kind, isAddr));
      Node(Decorate(n, isAddr, child'), child', TypeCheck(sibling, false))
  }
}
