/**
 * The AGUDA abstract syntax tree (package `aguda.ast`) as one closed datatype. Every
 * node carries the source position its constructor received. Fields that the tree
 * builder may leave null (a missing `else`, the two halves of an array dimension) are
 * options; a function declaration always holds an identifier list.
 */
module Ast {
  import opened Wrappers

  datatype Pos = Pos(line: int, column: int)

  datatype Node =
    | VarDecl(pos: Pos, id: string, typeElem: Node, exprs: Node)
    | FunDecl(pos: Pos, idList: IdList, functionType: Node, exprs: Node)
    | Exprs(pos: Pos, items: seq<Node>, separator: string)
    | Let(pos: Pos, id: string, letType: Node, block: Node)
    | SetExpr(pos: Pos, lhs: Node, rhs: Node)
    | If(pos: Pos, cond: Node, thenBranch: Node, elseBranch: Option<Node>)
    | While(pos: Pos, cond: Node, body: Node)
    | Call(pos: Pos, id: string, args: Node)
    | Binary(pos: Pos, op: string, left: Node, right: Node)
    | Unary(pos: Pos, op: string, operand: Node)
    | ArrayAccess(pos: Pos, arrayExpr: Node, indices: seq<Node>)
    | ArrayCreation(pos: Pos, baseType: string, dims: seq<Dimension>)
    | Identifier(pos: Pos, name: string)
    | IntLit(pos: Pos, value: nat)
    | BoolLit(pos: Pos, bval: bool)
    | StringLit(pos: Pos, text: string)
    | NullLit(pos: Pos)
    | Paren(pos: Pos, inner: Node)
    | BasicType(pos: Pos, typeName: string)
    | ArrayType(pos: Pos, base: Node, dimensions: nat)
    | FunctionType(pos: Pos, params: Node, returnType: Node)
    | TypeList(pos: Pos, types: seq<Node>)

  /** `IdList`: the declared function name and its parameter nodes. */
  datatype IdList = IdList(pos: Pos, id: string, ids: seq<Node>)

  /** `ArrayCreation.Dimension`: both halves are null for a bare `[]`. */
  datatype Dimension = Dimension(size: Option<Node>, init: Option<Node>)

  datatype Program = Program(pos: Pos, declarations: seq<Node>)

  /** `node.getClass().toString()`, as it appears in the checker's internal errors. */
  function ClassName(n: Node): string {
    "class aguda.ast." +
    match n
    case VarDecl(_, _, _, _) => "VariableDeclaration"
    case FunDecl(_, _, _, _) => "FunctionTypeDeclaration"
    case Exprs(_, _, _) => "Expressions"
    case Let(_, _, _, _) => "LetExpression"
    case SetExpr(_, _, _) => "SetExpression"
    case If(_, _, _, _) => "IfExpression"
    case While(_, _, _) => "WhileExpression"
    case Call(_, _, _) => "CallFunctionExpression"
    case Binary(_, _, _, _) => "BinaryOp"
    case Unary(_, _, _) => "UnaryOp"
    case ArrayAccess(_, _, _) => "ArrayAccess"
    case ArrayCreation(_, _, _) => "ArrayCreation"
    case Identifier(_, _) => "Identifier"
    case IntLit(_, _) => "IntLiteral"
    case BoolLit(_, _) => "BoolLiteral"
    case StringLit(_, _) => "StringLiteral"
    case NullLit(_) => "NullLiteral"
    case Paren(_, _) => "ParenthicalExpression"
    case BasicType(_, _) => "BasicType"
    case ArrayType(_, _, _) => "ArrayType"
    case FunctionType(_, _, _) => "FunctionType"
    case TypeList(_, _) => "TypeList"
  }
}
