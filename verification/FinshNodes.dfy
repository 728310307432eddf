/** The node objects of the shell, and the attribute pass that writes them in place. */
module FinshNodes {
  import opened Common
  import opened FinshTree

  class FinshNode {
    var info: Info
    var child: FinshNode?
    var sibling: FinshNode?
    ghost var Repr: set<FinshNode>

    /** Children and siblings form a tree. */
    ghost predicate Valid()
      reads this, Repr
      decreases Repr
    {
      && this in Repr
      && (child != null ==> child in Repr && child.Repr <= Repr - {this} && child.Valid())
      && (sibling != null ==> sibling in Repr && sibling.Repr <= Repr - {this} && sibling.Valid())
      && (child != null && sibling != null ==> child.Repr !! sibling.Repr)
    }

    ghost function AsTree(): Tree
      requires Valid()
      reads this, Repr
      decreases Repr
    {
      Node(info, if child == null then Null else child.AsTree(), if sibling == null then Null else sibling.AsTree())
    }
  }

  ghost function Nodes(n: FinshNode?): set<FinshNode>
    reads n
  {
    if n == null then {} else n.Repr
  }

  ghost predicate ValidRef(n: FinshNode?)
    reads n, Nodes(n)
  {
    n != null ==> n.Valid()
  }

  ghost function TreeOf(n: FinshNode?): Tree
    reads n, Nodes(n)
    requires ValidRef(n)
  {
    if n == null then Null else n.AsTree()
  }

  /** The assignments `finsh_type_check` makes to one node once its children are done. */
  method DecorateNode(node: FinshNode, isAddr: bool, ghost child: Tree)
    requires (node.child == null) == child.Null?
    requires node.child != null ==> node.child.info == child.info
    modifies node`info
    ensures node.info == Decorate(old(node.info), isAddr, child)
  {
    if node.info.idtype != IdType(SysCallId, false) {
      node.info := node.info.(idtype := node.info.idtype.(address := node.info.idtype.address || isAddr));
    }
    if node.child != null {
      node.info := node.info.(dtype := node.child.info.dtype);
      return;
    }
    match node.info.kind
    case Id(symbol) =>
      if node.info.idtype.base == VarId {
        if symbol.UserVar? { node.info := node.info.(dtype := VarDataType(symbol.vtype)); }
      } else if node.info.idtype.base == SysVarId {
        if symbol.SysVar? { node.info := node.info.(dtype := VarDataType(symbol.vtype)); }
      }
    case ValueChar(_) => node.info := node.info.(dtype := DtByte);
    case ValueInt(_) => node.info := node.info.(dtype := DtDword);
    case ValueLong(_) => node.info := node.info.(dtype := DtDword);
    case ValueString(_) => node.info := node.info.(dtype := DtDword);
    case ValueNull(_) => node.info := node.info.(dtype := DtDword);
    case _ =>
  }

  /** `finsh_type_check`: attributes every node under `node` in place, and moves no link. */
  method TypeCheckNodes(node: FinshNode?, isAddr: bool)
    requires ValidRef(node)
    modifies Nodes(node)
    ensures forall n :: n in old(Nodes(node)) ==>
      n.child == old(n.child) && n.sibling == old(n.sibling) && n.Repr == old(n.Repr)
    ensures ValidRef(node) && Nodes(node) == old(Nodes(node))
    ensures TreeOf(node) == TypeCheck(old(TreeOf(node)), isAddr)
    decreases Nodes(node)
  {
    hide Decorate, ChildAddress;
    if node != null {
      var child, sibling := node.child, node.sibling;
      ghost var childTree := TreeOf(child);
      ghost var siblingTree := TreeOf(sibling);
      assert node !in Nodes(child) && node !in Nodes(sibling) && Nodes(child) !! Nodes(sibling);
      TypeCheckNodes(child, ChildAddress(node.info.kind, isAddr));
      assert ValidRef(sibling) && TreeOf(sibling) == siblingTree;
      label checked:
      TypeCheckNodes(sibling, false);
      assert ValidRef(child) && TreeOf(child) == old@checked(TreeOf(child));
      label attributed:
      DecorateNode(node, isAddr, TreeOf(child));
      assert TreeOf(child) == old@attributed(TreeOf(child)) && TreeOf(sibling) == old@attributed(TreeOf(sibling));
    }
  }
}
