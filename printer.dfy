/**
 * `print(indent)` of every AST node. `Print` is the reference rendering; the loop
 * methods are the StringBuilder loops of the list-shaped nodes, each proved to build
 * exactly that rendering.
 */
module Printer {
  import opened Wrappers
  import opened Text
  import opened Ast

  /** What `Expressions` appends after its separator: a space after `,`, else a newline. */
  function SeparatorText(separator: string): string {
    separator + if separator == "," then " " else "\n"
  }

  function Print(n: Node, indent: nat): string
    decreases n, 1
  {
    match n
    case VarDecl(_, id, typeElem, exprs) =>
      "let " + id + " : " + Print(typeElem, indent) + " =\n" + Print(exprs, indent + 2)
    case FunDecl(_, idList, functionType, exprs) =>
      "let " + PrintIdList(idList) + " : " + Print(functionType, indent) + " =\n" + Print(exprs, indent + 2)
    case Exprs(_, items, separator) =>
      Join(SeparatorText(separator), PrintEach(items, indent))
    case Let(_, id, letType, block) =>
      Spaces(indent) + "let " + id + " : " + Print(letType, indent) + " =\n" + Print(block, indent + 2)
    case SetExpr(_, lhs, rhs) =>
      Spaces(indent) + "set " + Print(lhs, indent) + " =\n" + Print(rhs, indent + 2)
    case If(_, cond, thenBranch, elseBranch) =>
      Spaces(indent) + "if " + Print(cond, indent) + " then " + Print(thenBranch, indent) + "\n" + Spaces(indent) +
      (match elseBranch
       case None => "else Unit"
       case Some(e) => "else " + Print(e, indent))
    case While(_, cond, body) =>
      Spaces(indent) + "while " + Print(cond, indent) + " do\n" + Spaces(indent + 2) + Print(body, indent + 2)
    case Call(_, id, args) =>
      Spaces(indent) + id + "(" + Print(args, indent) + ")"
    case Binary(_, op, left, right) =>
      Print(left, indent) + " " + op + " " + Print(right, indent)
    case Unary(_, op, operand) =>
      if op == "-" then Spaces(indent) + "0 - " + Print(operand, indent)
      else Spaces(indent) + op + Print(operand, indent)
    case ArrayAccess(_, arrayExpr, indices) =>
      Spaces(indent) + Print(arrayExpr, indent) + Concat(Bracketed(PrintEach(indices, indent)))
    case ArrayCreation(_, baseType, dims) =>
      Spaces(indent) + "new " + baseType + Concat(PrintDims(dims, indent))
    case Identifier(_, name) => Spaces(indent) + name
    case IntLit(_, value) => Spaces(indent) + NatToString(value)
    case BoolLit(_, b) => Spaces(indent) + if b then "true" else "false"
    case StringLit(_, text) => Spaces(indent) + text
    case NullLit(_) => Spaces(indent) + "unit"
    case Paren(_, inner) => Spaces(indent) + "(\n" + Print(inner, indent + 2) + "\n" + Spaces(indent) + ")"
    case BasicType(_, typeName) => typeName
    case ArrayType(_, base, dimensions) => Print(base, indent) + Repeat("[]", dimensions)
    case FunctionType(_, params, returnType) => Print(params, indent) + " -> " + Print(returnType, indent)
    case TypeList(_, types) =>
      if |types| == 1 then Print(types[0], indent)
      else Spaces(indent) + "(" + Join(", ", PrintEach(types, 0)) + ")"
  }

  /** Each node printed at the same indent, in order. */
  function PrintEach(items: seq<Node>, indent: nat): (r: seq<string>)
    ensures |r| == |items|
    decreases items, 0
  {
    if items == [] then [] else [Print(items[0], indent)] + PrintEach(items[1..], indent)
  }

  lemma {:induction false} PrintEachAt(items: seq<Node>, indent: nat, k: nat)
    requires k < |items|
    ensures PrintEach(items, indent)[k] == Print(items[k], indent)
  {
    if k > 0 {
      PrintEachAt(items[1..], indent, k - 1);
    }
  }

  /** `IdList.print`: the parameters are printed at indent 0 whatever the caller asks. */
  function PrintIdList(l: IdList): string
    decreases l, 0
  {
    l.id + "(" + Join(", ", PrintEach(l.ids, 0)) + ")"
  }

  /** One bracket pair around each index rendering. */
  function Bracketed(xs: seq<string>): (r: seq<string>)
    ensures |r| == |xs|
    ensures forall k :: 0 <= k < |xs| ==> r[k] == "[" + xs[k] + "]"
  {
    if xs == [] then [] else ["[" + xs[0] + "]"] + Bracketed(xs[1..])
  }

  /** A dimension with both a size and an initialiser prints them inside its brackets; any other prints `[]`. */
  function PrintDim(d: Dimension, indent: nat): string
    decreases d, 0
  {
    "[" + (if d.size.Some? && d.init.Some? then Print(d.size.value, indent) + " | " + Print(d.init.value, indent) else "") + "]"
  }

  function PrintDims(dims: seq<Dimension>, indent: nat): (r: seq<string>)
    ensures |r| == |dims|
    decreases dims, 1
  {
    if dims == [] then [] else [PrintDim(dims[0], indent)] + PrintDims(dims[1..], indent)
  }

  lemma {:induction false} PrintDimsAt(dims: seq<Dimension>, indent: nat, k: nat)
    requires k < |dims|
    ensures PrintDims(dims, indent)[k] == PrintDim(dims[k], indent)
  {
    if k > 0 {
      PrintDimsAt(dims[1..], indent, k - 1);
    }
  }

  /** `items.get(k).print(indent)`, the call each loop below makes on one child. */
  method PrintItem(items: seq<Node>, k: nat, indent: nat) returns (piece: string)
    requires k < |items|
    ensures piece == PrintEach(items, indent)[k]
  {
    PrintEachAt(items, indent, k);
    piece := Print(items[k], indent);
  }

  /** `Expressions.print`. */
  method PrintExpressions(n: Node, indent: nat) returns (s: string)
    requires n.Exprs?
    ensures s == Print(n, indent)
  {
    var items := n.items;
    ghost var sep := SeparatorText(n.separator);
    ghost var pieces := PrintEach(items, indent);
    s := "";
    var i := 0;
    while i < |items|
      invariant 0 <= i <= |items|
      invariant s == JoinedUpTo(sep, pieces, i)
    {
      JoinedStep(sep, pieces, i);
      var piece := PrintItem(items, i, indent);
      s := s + piece;
      if i < |items| - 1 {
        var gap := if n.separator == "," then " " else "\n";
        s := s + (n.separator + gap);
      }
      i := i + 1;
    }
  }

  /** `TypeList.print`: the items are printed at indent 0. */
  method PrintTypeList(n: Node, indent: nat) returns (s: string)
    requires n.TypeList?
    ensures s == Print(n, indent)
  {
    var types := n.types;
    if |types| == 1 {
      return Print(types[0], indent);
    }
    ghost var pieces := PrintEach(types, 0);
    var sb := "(";
    var i := 0;
    while i < |types|
      invariant 0 <= i <= |types|
      invariant sb == "(" + JoinedUpTo(", ", pieces, i)
    {
      JoinedStep(", ", pieces, i);
      var piece := PrintItem(types, i, 0);
      sb := sb + piece;
      if i < |types| - 1 {
        sb := sb + ", ";
      }
      i := i + 1;
    }
    sb := sb + ")";
    s := Spaces(indent) + sb;
    PrintTypeListShape(n, indent);
  }

  lemma PrintTypeListShape(n: Node, indent: nat)
    requires n.TypeList? && |n.types| != 1
    ensures Print(n, indent) == Spaces(indent) + ("(" + JoinedUpTo(", ", PrintEach(n.types, 0), |n.types|) + ")")
  {
  }

  /** `ArrayType.print`. */
  method PrintArrayType(n: Node, indent: nat) returns (s: string)
    requires n.ArrayType?
    ensures s == Print(n, indent)
  {
    var dimensionsBuilder := "";
    var i := 0;
    while i < n.dimensions
      invariant 0 <= i <= n.dimensions
      invariant dimensionsBuilder == Repeat("[]", i)
    {
      RepeatSnoc("[]", i);
      dimensionsBuilder := dimensionsBuilder + "[]";
      i := i + 1;
    }
    s := Print(n.base, indent) + dimensionsBuilder;
  }

  /** `IdList.print`; the requested indent is ignored. */
  method PrintIds(l: IdList, indent: nat) returns (s: string)
    ensures s == PrintIdList(l)
  {
    ghost var pieces := PrintEach(l.ids, 0);
    var sb := l.id + "(";
    var i := 0;
    while i < |l.ids|
      invariant 0 <= i <= |l.ids|
      invariant sb == l.id + "(" + JoinedUpTo(", ", pieces, i)
    {
      JoinedStep(", ", pieces, i);
      var piece := PrintItem(l.ids, i, 0);
      sb := sb + piece;
      if i < |l.ids| - 1 {
        sb := sb + ", ";
      }
      i := i + 1;
    }
    s := sb + ")";
  }

  /** `ArrayCreation.print`. */
  method PrintArrayCreation(n: Node, indent: nat) returns (s: string)
    requires n.ArrayCreation?
    ensures s == Print(n, indent)
  {
    ghost var pieces := PrintDims(n.dims, indent);
    var prefix := Spaces(indent) + "new " + n.baseType;
    s := prefix;
    var i := 0;
    while i < |n.dims|
      invariant 0 <= i <= |n.dims|
      invariant s == prefix + Concat(pieces[..i])
    {
      ConcatStep(pieces, i);
      PrintDimsAt(n.dims, indent, i);
      var piece := PrintDimension(n.dims[i], indent);
      s := s + piece;
      i := i + 1;
    }
    assert pieces[..|n.dims|] == pieces;
    PrintArrayCreationShape(n, indent);
  }

  lemma PrintArrayCreationShape(n: Node, indent: nat)
    requires n.ArrayCreation?
    ensures Print(n, indent) == Spaces(indent) + "new " + n.baseType + Concat(PrintDims(n.dims, indent))
  {
  }

  /** The body of the loop over dimensions in `ArrayCreation.print`. */
  method PrintDimension(dim: Dimension, indent: nat) returns (piece: string)
    ensures piece == PrintDim(dim, indent)
  {
    var inside := "";
    if dim.size.Some? && dim.init.Some? {
      inside := Print(dim.size.value, indent) + " | " + Print(dim.init.value, indent);
    }
    piece := "[" + inside + "]";
  }

  /** `ArrayAccess.print`: an `Expressions` index and any other index are bracketed alike. */
  method PrintArrayAccess(n: Node, indent: nat) returns (s: string)
    requires n.ArrayAccess?
    ensures s == Print(n, indent)
  {
    ghost var pieces := Bracketed(PrintEach(n.indices, indent));
    var prefix := Spaces(indent) + Print(n.arrayExpr, indent);
    s := prefix;
    var i := 0;
    while i < |n.indices|
      invariant 0 <= i <= |n.indices|
      invariant s == prefix + Concat(pieces[..i])
    {
      ConcatStep(pieces, i);
      var text := PrintItem(n.indices, i, indent);
      s := s + ("[" + text + "]");
      i := i + 1;
    }
    assert pieces[..|n.indices|] == pieces;
    PrintArrayAccessShape(n, indent);
  }

  lemma PrintArrayAccessShape(n: Node, indent: nat)
    requires n.ArrayAccess?
    ensures Print(n, indent) == Spaces(indent) + Print(n.arrayExpr, indent) + Concat(Bracketed(PrintEach(n.indices, indent)))
  {
  }

  lemma ConcatStep(xs: seq<string>, i: nat)
    requires i < |xs|
    ensures Concat(xs[..i + 1]) == Concat(xs[..i]) + xs[i]
  {
    assert xs[..i + 1][..i] == xs[..i];
  }
}
