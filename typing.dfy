/**
 * The semantic checker (`aguda.checker.Checker`) as functions over its state. Every
 * function takes the state before a call and returns the computed type together with
 * the state after it, or the exception the Java method throws together with the state
 * at the throw. The `Checker` class in module `CheckerImpl` is proved to do exactly this.
 */
module Typing {
  import opened Wrappers
  import opened Text
  import opened Types
  import opened Ast
  import opened Java
  import opened Scopes

  /** One stored report: where `error` was called and what it said. */
  datatype Diagnostic = Diagnostic(line: int, column: int, issue: Issue)

  /** The checker's error messages, one constructor per message text (see `IssueText`). */
  datatype Issue =
    | UndeclaredVariable(name: string)
    | WildcardInExpression
    | NotOperandNotBool(found: Type)
    | MinusOperandNotInt(found: Type)
    | MinusOutOfBounds(negated: int)
    | UnknownUnaryOperator(op: string)
    | VariableTypeMismatch(declared: Type, found: Type)
    | ReturnTypeMismatch(declared: Type, found: Type)
    | ParameterCountMismatch
    | SingleParameterExpected
    | ReservedParameter(name: string)
    | LetTypeMismatch(declared: Type, found: Type)
    | IfConditionNotBool(found: Type)
    | BranchTypeMismatch(thenType: Type, elseType: Type)
    | AssignmentTypeMismatch(lhs: Type, found: Type)
    | WhileConditionNotBool(found: Type)
    | BuiltinArity(name: string, count: int)
    | LengthNotArray(found: Type)
    | UndeclaredFunction(name: string)
    | NotAFunction(name: string)
    | ArgumentCountMismatch(name: string, expectedCount: int, count: int)
    | SingleArgumentExpected(name: string, count: int)
    | SingleArgumentMismatch(name: string, declared: Type, found: Type)
    | ArgumentMismatch(position: int, name: string, declared: Type, found: Type)
    | ArithmeticOperands(left: Type, right: Type)
    | RelationalOperands(op: string, left: Type, right: Type)
    | EqualityOperands(op: string, left: Type, right: Type)
    | LogicalOperands(left: Type, right: Type)
    | TooManyIndices(dimensions: int)
    | NotAnArray(found: Type)
    | IndexNotInt(found: Type)
    | SizeNotInt(found: Type)
    | ArrayInitElementMismatch(declared: Type, found: Type)
    | ArrayInitMismatch(declared: Type, found: Type)
    | ReservedName(name: string, kind: string)
    | AlreadyDefined(kindName: string, name: string)

  /** The message text `error` receives for each issue. */
  function IssueText(i: Issue): string {
    match i
    case UndeclaredVariable(x) => "Undeclared variable '" + x + "'"
    case WildcardInExpression => "Wildcard '_' cannot be used in expressions"
    case NotOperandNotBool(t) => "Unary '!' expects Bool operand, found: " + ToString(t)
    case MinusOperandNotInt(t) => "Unary '-' expects Int operand, found: " + ToString(t)
    case MinusOutOfBounds(v) => "Result of unary minus is out of Int bounds: " + IntToString(v)
    case UnknownUnaryOperator(op) => "Unknown unary operator: " + op
    case VariableTypeMismatch(d, t) => "Declared type " + ToString(d) + " does not match actual type " + ToString(t)
    case ReturnTypeMismatch(d, t) => "Function body does not match declared return type " + ToString(d) + ". Found: " + ToString(t)
    case ParameterCountMismatch => "Function parameters count doesn't match type signature"
    case SingleParameterExpected => "Function declared with multiple identifiers but type signature expects one"
    case ReservedParameter(x) => "Cannot use reserved name '" + x + "' as a parameter"
    case LetTypeMismatch(d, t) => "Declared type " + ToString(d) + " does not match expression type " + ToString(t)
    case IfConditionNotBool(t) => "Expected condition to be of type Bool, found " + ToString(t)
    case BranchTypeMismatch(a, b) => "Expected both branches to return same type, found " + ToString(a) + " and " + ToString(b)
    case AssignmentTypeMismatch(a, b) => "Type mismatch in assignment: expected " + ToString(a) + ", found " + ToString(b)
    case WhileConditionNotBool(t) => "Condition of while must be Bool, found " + ToString(t)
    case BuiltinArity(f, k) => "'" + f + "' expects exactly 1 argument, found " + IntToString(k)
    case LengthNotArray(t) => "'length' expects an array argument, found " + ToString(t)
    case UndeclaredFunction(f) => "Undeclared function '" + f + "'"
    case NotAFunction(f) => "Identifier '" + f + "' is not a function"
    case ArgumentCountMismatch(f, e, k) => "Function '" + f + "' expects " + IntToString(e) + " arguments, got " + IntToString(k)
    case SingleArgumentExpected(f, k) => "Function '" + f + "' expects 1 argument, got " + IntToString(k)
    case SingleArgumentMismatch(f, d, t) => "Function '" + f + "' expects argument of type " + ToString(d) + ", found " + ToString(t)
    case ArgumentMismatch(k, f, d, t) =>
      "Argument " + IntToString(k) + " of '" + f + "' expects " + ToString(d) + ", found " + ToString(t)
    case ArithmeticOperands(a, b) => "Arithmetic operations require Int operands, found " + ToString(a) + " and " + ToString(b)
    case RelationalOperands(op, a, b) =>
      "Relational operators '" + op + "' require Int operands, found " + ToString(a) + " and " + ToString(b)
    case EqualityOperands(op, a, b) =>
      "Equality operator '" + op + "' requires operands of the same type, found " + ToString(a) + " and " + ToString(b)
    case LogicalOperands(a, b) => "Logical operations require Bool operands, found " + ToString(a) + " and " + ToString(b)
    case TooManyIndices(d) => "Too many indices for array of dimension " + IntToString(d)
    case NotAnArray(t) => "Trying to access something that is not an array: " + ToString(t)
    case IndexNotInt(t) => "Array index must be of type Int, found " + ToString(t)
    case SizeNotInt(t) => "Array size must be Int, found: " + ToString(t)
    case ArrayInitElementMismatch(d, t) => "Arrayy initialization type mismatch: expected " + ToString(d) + ", found " + ToString(t)
    case ArrayInitMismatch(d, t) => "Array initialization type mismatch: expected " + ToString(d) + ", found " + ToString(t)
    case ReservedName(x, kind) => "Cannot use reserved name '" + x + "' as a " + kind
    case AlreadyDefined(kind, x) => kind + " '" + x + "' is already defined"
  }

  /**
   * The checker's fields. `errorMessages` is the rendering of `diagnostics` followed by
   * `trailer`, the text appended after checking stops (the summary line, an internal error).
   */
  datatype CheckState = CheckState(
    scopes: seq<Scope>,
    hasErrors: bool,
    diagnostics: seq<Diagnostic>,
    trailer: string,
    maxErrors: int,
    totalErrors: int)

  datatype Typed<T> = Typed(value: T, st: CheckState)

  /** A call that returns `value`, or throws `exc`; either way leaving the checker in `st`. */
  datatype Step<T> = Ok(value: T, st: CheckState) | Crash(exc: Exception, st: CheckState) {
    predicate IsFailure() { Crash? }
    function PropagateFailure<U>(): Step<U>
      requires Crash?
    {
      Crash(exc, st)
    }
    function Extract(): Typed<T>
      requires Ok?
    {
      Typed(value, st)
    }
  }

  /** A new `Checker`: the context's single global scope, no errors. */
  function Initial(maxErrors: int): CheckState {
    CheckState([map[]], false, [], "", maxErrors, 0)
  }

  function DiagnosticText(d: Diagnostic): string {
    "Test Failed \U{274C}\nError: (" + IntToString(d.line) + ", " + IntToString(d.column) + ") " + IssueText(d.issue) + "\n"
  }

  function DiagnosticsText(ds: seq<Diagnostic>): string {
    if ds == [] then "" else DiagnosticsText(ds[..|ds| - 1]) + DiagnosticText(ds[|ds| - 1])
  }

  /** `getErrorMessage()`, without the source-line excerpts `error` reads from the file. */
  function ErrorMessage(st: CheckState): (r: string)
    ensures EndsWith(r, st.trailer)
    ensures st.diagnostics == [] ==> r == st.trailer
  {
    DiagnosticsText(st.diagnostics) + st.trailer
  }

  // ---------------------------------------------------------------- error accounting

  /** `error(node, IssueText(issue))` for a node at `at`. */
  function Report(st: CheckState, at: Pos, issue: Issue): (r: CheckState)
    ensures r.totalErrors == st.totalErrors + 1
    ensures r.scopes == st.scopes && r.maxErrors == st.maxErrors && r.trailer == st.trailer
    ensures st.totalErrors < st.maxErrors ==>
      r.hasErrors && r.diagnostics == st.diagnostics + [Diagnostic(at.line, at.column, issue)]
    ensures st.totalErrors >= st.maxErrors ==> r.hasErrors == st.hasErrors && r.diagnostics == st.diagnostics
  {
    if st.totalErrors < st.maxErrors then
      st.(hasErrors := true,
          diagnostics := st.diagnostics + [Diagnostic(at.line, at.column, issue)],
          totalErrors := st.totalErrors + 1)
    else
      st.(totalErrors := st.totalErrors + 1)
  }

  /**
   * The number of stored diagnostics less the number of `error` calls the cap lets
   * through. Every call of `error` keeps it constant: it stores exactly when the count it
   * raises is still within `maxErrors`.
   */
  function CapGap(s: CheckState): int {
    |s.diagnostics| - if s.totalErrors < s.maxErrors then s.totalErrors else s.maxErrors
  }

  /**
   * `b` is reachable from `a` by calls of `error` and scope changes only: the reports
   * made since `a` are appended, exactly as many as the cap lets through, and `hasErrors`
   * is set exactly when one of them is stored.
   */
  predicate Evolves(a: CheckState, b: CheckState) {
    && b.maxErrors == a.maxErrors
    && b.trailer == a.trailer
    && a.totalErrors <= b.totalErrors
    && a.diagnostics <= b.diagnostics
    && CapGap(b) == CapGap(a)
    && b.hasErrors == (a.hasErrors || |a.diagnostics| < |b.diagnostics|)
  }

  /** A normal return leaves as many scopes as it found, and all but the innermost untouched. */
  predicate Balanced<T>(before: CheckState, r: Step<T>) {
    r.Ok? ==> |r.st.scopes| == |before.scopes| && Outer(r.st.scopes) == Outer(before.scopes)
  }

  /** Every scope but the innermost. */
  function Outer(scopes: seq<Scope>): seq<Scope> {
    if scopes == [] then [] else scopes[1..]
  }

  // ---------------------------------------------------------------- the context

  function BeginScope(st: CheckState): CheckState {
    st.(scopes := Push(st.scopes))
  }

  /**
   * `endScope` where it follows a `beginScope` and a normal return of `typeof`: there is
   * always a scope to pop (see `Balanced`), so its exception cannot arise here.
   */
  function EndScope(st: CheckState): (r: CheckState)
    requires st.scopes != []
    ensures r == st.(scopes := st.scopes[1..])
  {
    st.(scopes := st.scopes[1..])
  }

  function Add(st: CheckState, id: string, t: Type): (r: Step<()>)
    ensures r.Ok? <==> st.scopes != []
    ensures r.Ok? ==> r.st == st.(scopes := Bind(st.scopes, id, t))
    ensures r.Crash? ==> r.exc == NoScopeToInsert && r.st == st
  {
    if st.scopes == [] then Crash(NoScopeToInsert, st) else Ok((), st.(scopes := Bind(st.scopes, id, t)))
  }

  // ---------------------------------------------------------------- type syntax

  /** The four names `convertType` and `checkArrayCreation` accept as a basic type. */
  function BasicTypeOf(name: string): (r: Option<Type>)
    ensures r.Some? <==> name in {"Int", "Bool", "String", "Unit"}
  {
    if name == "Int" then Some(TInt)
    else if name == "Bool" then Some(TBool)
    else if name == "String" then Some(TString)
    else if name == "Unit" then Some(TUnit)
    else None
  }

  /** `convertType`: type syntax to a type; any other node, or an unknown name, throws. */
  function ConvertType(n: Node): (r: Result<Type, Exception>)
    ensures n.BasicType? ==> (r.Success? <==> n.typeName in {"Int", "Bool", "String", "Unit"})
    ensures r.Success? ==> && (n.ArrayType? <==> r.value.TArray?)
                           && (n.TypeList? <==> r.value.TMulti?)
                           && (n.FunctionType? <==> r.value.TFunction?)
    ensures r.Success? && n.ArrayType? ==> r.value.dims == n.dimensions
    ensures r.Success? && n.TypeList? ==> |r.value.types| == |n.types|
    ensures !(n.BasicType? || n.ArrayType? || n.TypeList? || n.FunctionType?) ==> r.Failure?
    decreases n, 2
  {
    match n
    case BasicType(_, name) =>
      (match BasicTypeOf(name)
       case Some(t) => Success(t)
       case None => Failure(RuntimeException("Unknown basic type: " + name)))
    case ArrayType(_, base, dimensions) =>
      var elem :- ConvertType(base);
      Success(TArray(elem, dimensions))
    case TypeList(_, types) =>
      var ts :- ConvertEach(types);
      Success(TMulti(ts))
    case FunctionType(_, params, returnType) =>
      var from :- ConvertType(params);
      var to :- ConvertType(returnType);
      Success(TFunction(from, to))
    case _ => Failure(RuntimeException("Unknown AST type: " + ClassName(n)))
  }

  /** The loop over a `TypeList`: converts in order, and the first failure is the answer. */
  function ConvertEach(ns: seq<Node>): (r: Result<seq<Type>, Exception>)
    ensures r.Success? ==> |r.value| == |ns|
    decreases ns, 0
  {
    if ns == [] then Success([])
    else
      var t :- ConvertType(ns[0]);
      var ts :- ConvertEach(ns[1..]);
      Success([t] + ts)
  }

  // ---------------------------------------------------------------- typeof

  const ArithmeticOps: set<string> := {"+", "-", "*", "/", "%", "^"}
  const RelationalOps: set<string> := {"<", "<=", ">", ">="}
  const EqualityOps: set<string> := {"==", "!="}
  const LogicalOps: set<string> := {"&&", "||"}

  /** The names the language reserves for its two built-in functions. */
  predicate Reserved(name: string) {
    name == "print" || name == "length"
  }

  /** Where a mismatch against a block is reported: its last expression, or the block itself. */
  function LastPos(block: Node): Pos {
    if block.Exprs? && block.items != [] then block.items[|block.items| - 1].pos else block.pos
  }

  /** The largest Java `int`, and the smallest. */
  const IntMax: int := 0x7FFF_FFFF
  const IntMin: int := -0x8000_0000

  function TypeOf(st: CheckState, n: Node, isDeclaration: bool): (r: Step<Type>)
    ensures Evolves(st, r.st) && Balanced(st, r)
    decreases n, 3
  {
    match n
    case VarDecl(_, _, _, _) => CheckVariableDeclaration(st, n)
    case FunDecl(_, _, _, _) => CheckFunctionDeclaration(st, n)
    case Exprs(_, _, _) => CheckExpressions(st, n)
    case Let(_, _, _, _) => CheckLet(st, n)
    case If(_, _, _, _) => CheckIf(st, n)
    case SetExpr(_, _, _) => CheckSet(st, n)
    case While(_, _, _) => CheckWhile(st, n)
    case Call(_, _, _) => CheckCall(st, n)
    case Binary(_, _, _, _) => CheckBinaryOp(st, n)
    case ArrayAccess(_, _, _) => CheckArrayAccess(st, n)
    case ArrayCreation(_, _, _) => CheckArrayCreation(st, n)
    case Paren(_, inner) => TypeOf(st, inner, false)
    case IntLit(_, _) => Ok(TInt, st)
    case BoolLit(_, _) => Ok(TBool, st)
    case StringLit(_, _) => Ok(TString, st)
    case NullLit(_) => Ok(TUnit, st)
    case Identifier(_, _) => TypeOfIdentifier(st, n, isDeclaration)
    case Unary(_, _, _) => CheckUnary(st, n)
    case _ => Crash(RuntimeException("Unknown expression type: " + ClassName(n)), st)
  }

  function TypeOfIdentifier(st: CheckState, n: Node, isDeclaration: bool): (r: Step<Type>)
    requires n.Identifier?
    ensures Evolves(st, r.st) && r.Ok? && r.st.scopes == st.scopes
  {
    match Lookup(st.scopes, n.name)
    case None => Ok(TUndeclared, Report(st, n.pos, UndeclaredVariable(n.name)))
    case Some(t) =>
      if n.name == "_" && !isDeclaration then
        Ok(TUndeclared, Report(st, n.pos, WildcardInExpression))
      else Ok(t, st)
  }

  function CheckUnary(st: CheckState, n: Node): (r: Step<Type>)
    requires n.Unary?
    ensures Evolves(st, r.st) && Balanced(st, r)
    decreases n, 2
  {
    var a :- TypeOf(st, n.operand, false);
    if n.op == "!" then
      Ok(TBool, if !a.value.TBool? then Report(a.st, n.pos, NotOperandNotBool(a.value)) else a.st)
    else if n.op == "-" then
      var s1 := if !a.value.TInt? then Report(a.st, n.pos, MinusOperandNotInt(a.value)) else a.st;
      var s2 :=
        if n.operand.IntLit? && !(IntMin <= -(n.operand.value as int) <= IntMax) then
          Report(s1, n.pos, MinusOutOfBounds(-(n.operand.value as int)))
        else s1;
      Ok(TInt, s2)
    else
      Ok(TUnit, Report(a.st, n.pos, UnknownUnaryOperator(n.op)))
  }

  function CheckVariableDeclaration(st: CheckState, n: Node): (r: Step<Type>)
    requires n.VarDecl?
    ensures Evolves(st, r.st) && Balanced(st, r)
    decreases n, 2
  {
    match ConvertType(n.typeElem)
    case Failure(e) => Crash(e, st)
    case Success(declared) =>
      var s1 := st.(scopes := Unbind(st.scopes, n.id));
      var a :- TypeOf(BeginScope(s1), n.exprs, false);
      var e := EndScope(a.st);
      var f :- Add(e, n.id, declared);
      var s :=
        if !Equals(declared, a.value) then
          Report(f.st, LastPos(n.exprs), VariableTypeMismatch(declared, a.value))
        else f.st;
      Ok(TUnit, s)
  }

  function CheckFunctionDeclaration(st: CheckState, n: Node): (r: Step<Type>)
    requires n.FunDecl?
    ensures Evolves(st, r.st) && Balanced(st, r)
    decreases n, 2
  {
    match ConvertType(n.functionType)
    case Failure(e) => Crash(e, st)
    case Success(declared) =>
      var p :- BindParameters(BeginScope(st), n, declared);
      var a :- TypeOf(p.st, n.exprs, false);
      var e := EndScope(a.st);
      var s :=
        if declared.TFunction? && !Equals(declared.to, a.value) then
          Report(e, LastPos(n.exprs), ReturnTypeMismatch(declared.to, a.value))
        else e;
      Ok(TUnit, s)
  }

  /** The parameter half of `checkFunctionDeclaration`, run in the freshly opened scope. */
  function BindParameters(st: CheckState, n: Node, declared: Type): (r: Step<()>)
    requires n.FunDecl?
    ensures Evolves(st, r.st) && Balanced(st, r)
  {
    if !declared.TFunction? then Ok((), st)
    else
      var from := declared.from;
      var ids := n.idList.ids;
      if from.TMulti? then
        var s := if |from.types| != |ids| then Report(st, n.pos, ParameterCountMismatch) else st;
        BindEach(s, ids, from.types, 0)
      else
        var s :=
          if |ids| != 1 then Report(st, n.pos, SingleParameterExpected)
          else st;
        if ids == [] then Crash(IndexOutOfBoundsException(0, 0), s)
        else BindParameter(s, ids[0], from)
  }

  /** One parameter: an identifier is bound unless its name is reserved; anything else is skipped. */
  function BindParameter(st: CheckState, param: Node, t: Type): (r: Step<()>)
    ensures Evolves(st, r.st) && Balanced(st, r)
  {
    if !param.Identifier? then Ok((), st)
    else if Reserved(param.name) then
      Ok((), Report(st, param.pos, ReservedParameter(param.name)))
    else Add(st, param.name, t)
  }

  /** The loop over the parameters against the listed types; `types.get(i)` throws past the end. */
  function BindEach(st: CheckState, ids: seq<Node>, types: seq<Type>, i: nat): (r: Step<()>)
    requires i <= |ids|
    ensures Evolves(st, r.st) && Balanced(st, r)
    decreases |ids| - i
  {
    if i == |ids| then Ok((), st)
    else if ids[i].Identifier? && !Reserved(ids[i].name) && i >= |types| then
      Crash(IndexOutOfBoundsException(i, |types|), st)
    else
      var b :- BindParameter(st, ids[i], if i < |types| then types[i] else TUndeclared);
      BindEach(b.st, ids, types, i + 1)
  }

  function CheckExpressions(st: CheckState, n: Node): (r: Step<Type>)
    requires n.Exprs?
    ensures Evolves(st, r.st) && Balanced(st, r)
    decreases n, 2
  {
    if n.items == [] then Ok(TUnit, st) else TypeOfFrom(st, n, 0)
  }

  /** Items `i..` of a sequence in order; the last one's type is the sequence's type. */
  function TypeOfFrom(st: CheckState, n: Node, i: nat): (r: Step<Type>)
    requires n.Exprs? && i < |n.items|
    ensures Evolves(st, r.st) && Balanced(st, r)
    decreases n, 0, |n.items| - i
  {
    if i == |n.items| - 1 then TypeOf(st, n.items[i], false)
    else
      var a :- TypeOf(st, n.items[i], false);
      TypeOfFrom(a.st, n, i + 1)
  }

  function CheckLet(st: CheckState, n: Node): (r: Step<Type>)
    requires n.Let?
    ensures Evolves(st, r.st) && Balanced(st, r)
    decreases n, 2
  {
    match ConvertType(n.letType)
    case Failure(e) => Crash(e, st)
    case Success(declared) =>
      var a :- TypeOf(BeginScope(st), n.block, false);
      var e := EndScope(a.st);
      var s :=
        if !Equals(declared, a.value) then
          Report(e, LastPos(n.block), LetTypeMismatch(declared, a.value))
        else e;
      var f :- Add(s, n.id, declared);
      Ok(TUnit, f.st)
  }

  function CheckIf(st: CheckState, n: Node): (r: Step<Type>)
    requires n.If?
    ensures Evolves(st, r.st) && Balanced(st, r)
    decreases n, 2
  {
    var c :- TypeOf(BeginScope(st), n.cond, false);
    var c1 := EndScope(c.st);
    var s1 :=
      if !c.value.TBool? then Report(c1, n.cond.pos, IfConditionNotBool(c.value))
      else c1;
    CheckBranches(s1, n)
  }

  /** The two branches of `checkIfExpression`, each in a scope of its own, and their comparison. */
  function CheckBranches(st: CheckState, n: Node): (r: Step<Type>)
    requires n.If?
    ensures Evolves(st, r.st) && Balanced(st, r)
    decreases n, 1
  {
    var t :- TypeOf(BeginScope(st), n.thenBranch, false);
    var t1 := EndScope(t.st);
    var e :- CheckElse(t1, n);
    var s :=
      if !Equals(t.value, e.value) then
        Report(e.st, n.pos, BranchTypeMismatch(t.value, e.value))
      else e.st;
    Ok(t.value, s)
  }

  /** The else half of `checkIfExpression`: a missing branch has type Unit. */
  function CheckElse(st: CheckState, n: Node): (r: Step<Type>)
    requires n.If?
    ensures Evolves(st, r.st) && Balanced(st, r)
    ensures n.elseBranch.None? ==> r == Ok(TUnit, st)
    decreases n, 0
  {
    match n.elseBranch
    case None => Ok(TUnit, st)
    case Some(b) =>
      var a :- TypeOf(BeginScope(st), b, false);
      var e := EndScope(a.st);
      Ok(a.value, e)
  }

  function CheckSet(st: CheckState, n: Node): (r: Step<Type>)
    requires n.SetExpr?
    ensures Evolves(st, r.st) && Balanced(st, r)
    decreases n, 2
  {
    var a :- TypeOf(st, n.lhs, false);
    var b :- TypeOf(a.st, n.rhs, false);
    var s :=
      if !Equals(a.value, b.value) then
        Report(b.st, n.pos, AssignmentTypeMismatch(a.value, b.value))
      else b.st;
    Ok(TUnit, s)
  }

  function CheckWhile(st: CheckState, n: Node): (r: Step<Type>)
    requires n.While?
    ensures Evolves(st, r.st) && Balanced(st, r)
    decreases n, 2
  {
    var c :- TypeOf(st, n.cond, false);
    var s :=
      if !c.value.TBool? then Report(c.st, n.cond.pos, WhileConditionNotBool(c.value))
      else c.st;
    var b :- TypeOf(BeginScope(s), n.body, false);
    var e := EndScope(b.st);
    Ok(TUnit, e)
  }

  function CheckCall(st: CheckState, n: Node): (r: Step<Type>)
    requires n.Call?
    ensures Evolves(st, r.st) && Balanced(st, r)
    decreases n, 2
  {
    if n.id == "print" || n.id == "length" then
      var result := if n.id == "print" then TUnit else TInt;
      if !n.args.Exprs? then Crash(ClassCastException(ClassName(n.args)), st)
      else if |n.args.items| != 1 then
        Ok(result, Report(st, n.pos, BuiltinArity(n.id, |n.args.items|)))
      else
        var a :- TypeOf(st, n.args.items[0], false);
        if n.id == "length" && !a.value.TArray? then
          Ok(TInt, Report(a.st, n.args.items[0].pos, LengthNotArray(a.value)))
        else Ok(result, a.st)
    else
      CheckUserCall(st, n)
  }

  /** A call of a declared function: the look-up, then the arguments against the signature. */
  function CheckUserCall(st: CheckState, n: Node): (r: Step<Type>)
    requires n.Call?
    ensures Evolves(st, r.st) && Balanced(st, r)
    decreases n, 1
  {
    var ty := Lookup(st.scopes, n.id);
    var s1 := if ty.None? then Report(st, n.pos, UndeclaredFunction(n.id)) else st;
    var isFunction := ty.Some? && ty.value.TFunction?;
    var s2 := if !isFunction then Report(s1, n.pos, NotAFunction(n.id)) else s1;
    if !isFunction then Ok(TUnit, s2)
    else if !n.args.Exprs? then Crash(ClassCastException(ClassName(n.args)), s2)
    else CheckCallArguments(s2, n, ty.value)
  }

  /** The arguments of a call against the signature `fn`: a list of types, or a single type. */
  function CheckCallArguments(st: CheckState, n: Node, fn: Type): (r: Step<Type>)
    requires n.Call? && n.args.Exprs? && fn.TFunction?
    ensures Evolves(st, r.st) && Balanced(st, r)
    decreases n, 0, |n.args.items| + 1
  {
    var args := n.args.items;
    if fn.from.TMulti? then
      var expected := fn.from.types;
      var s :=
        if |expected| != |args| then Report(st, n.pos, ArgumentCountMismatch(n.id, |expected|, |args|))
        else st;
      var c :- CheckArguments(s, n, expected, 0);
      Ok(fn.to, c.st)
    else
      var s := if |args| != 1 then Report(st, n.pos, SingleArgumentExpected(n.id, |args|)) else st;
      if args == [] then Crash(IndexOutOfBoundsException(0, 0), s)
      else
        var a :- TypeOf(s, args[0], false);
        var s1 :=
          if !Equals(fn.from, a.value) then Report(a.st, args[0].pos, SingleArgumentMismatch(n.id, fn.from, a.value))
          else a.st;
        Ok(fn.to, s1)
  }

  /** Arguments `i..`: each is typed, then compared with `expected.get(i)`, which throws past the end. */
  function CheckArguments(st: CheckState, n: Node, expected: seq<Type>, i: nat): (r: Step<()>)
    requires n.Call? && n.args.Exprs? && i <= |n.args.items|
    ensures Evolves(st, r.st) && Balanced(st, r)
    decreases n, 0, |n.args.items| - i
  {
    if i == |n.args.items| then Ok((), st)
    else
      var arg := n.args.items[i];
      var a :- TypeOf(st, arg, false);
      if i >= |expected| then Crash(IndexOutOfBoundsException(i, |expected|), a.st)
      else
        var s :=
          if !Equals(a.value, expected[i]) then
            Report(a.st, arg.pos, ArgumentMismatch(i + 1, n.id, expected[i], a.value))
          else a.st;
        CheckArguments(s, n, expected, i + 1)
  }

  function CheckBinaryOp(st: CheckState, n: Node): (r: Step<Type>)
    requires n.Binary?
    ensures Evolves(st, r.st) && Balanced(st, r)
    decreases n, 2
  {
    var a :- TypeOf(st, n.left, false);
    var b :- TypeOf(a.st, n.right, false);
    BinaryRule(b.st, n, a.value, b.value)
  }

  /** The operator switch of `checkBinaryOp`, once both operand types are known. */
  function BinaryRule(st: CheckState, n: Node, left: Type, right: Type): (r: Step<Type>)
    requires n.Binary?
    ensures Evolves(st, r.st) && r.st.scopes == st.scopes
  {
    if n.op in ArithmeticOps then
      Ok(TInt, if !(left.TInt? && right.TInt?) then Report(st, n.pos, ArithmeticOperands(left, right)) else st)
    else if n.op in RelationalOps then
      Ok(TBool,
        if !(left.TInt? && right.TInt?) then Report(st, n.pos, RelationalOperands(n.op, left, right))
        else st)
    else if n.op in EqualityOps then
      Ok(TBool,
        if !Equals(left, right) then Report(st, n.pos, EqualityOperands(n.op, left, right))
        else st)
    else if n.op in LogicalOps then
      Ok(TBool, if !(left.TBool? && right.TBool?) then Report(st, n.pos, LogicalOperands(left, right)) else st)
    else
      Crash(RuntimeException("Unknown binary operator: " + n.op), st)
  }

  function CheckArrayAccess(st: CheckState, n: Node): (r: Step<Type>)
    requires n.ArrayAccess?
    ensures Evolves(st, r.st) && Balanced(st, r)
    decreases n, 2
  {
    var c :- CheckIndices(st, n, 0);
    var a :- TypeOf(c.st, n.arrayExpr, false);
    AccessRule(a.st, n, a.value)
  }

  /** What `checkArrayAccess` concludes from the type of the accessed expression. */
  function AccessRule(st: CheckState, n: Node, arrayType: Type): (r: Step<Type>)
    requires n.ArrayAccess?
    ensures Evolves(st, r.st) && r.Ok? && r.st.scopes == st.scopes
  {
    match arrayType
    case TArray(elem, d) =>
      var remaining := d - |n.indices|;
      if remaining < 0 then Ok(TUndeclared, Report(st, n.pos, TooManyIndices(d)))
      else if remaining == 0 then Ok(elem, st)
      else Ok(TArray(elem, remaining), st)
    case _ =>
      Ok(TUndeclared, Report(st, n.pos, NotAnArray(arrayType)))
  }

  function CheckIndices(st: CheckState, n: Node, i: nat): (r: Step<()>)
    requires n.ArrayAccess? && i <= |n.indices|
    ensures Evolves(st, r.st) && Balanced(st, r)
    decreases n, 0, |n.indices| - i
  {
    if i == |n.indices| then Ok((), st)
    else
      var index := n.indices[i];
      var a :- TypeOf(st, index, false);
      var s := if !a.value.TInt? then Report(a.st, index.pos, IndexNotInt(a.value)) else a.st;
      CheckIndices(s, n, i + 1)
  }

  function CheckArrayCreation(st: CheckState, n: Node): (r: Step<Type>)
    requires n.ArrayCreation?
    ensures Evolves(st, r.st) && Balanced(st, r)
    decreases n, 2
  {
    match BasicTypeOf(n.baseType)
    case None => Crash(RuntimeException("Unknown array base type: " + n.baseType), st)
    case Some(base) =>
      var c :- CheckDimensions(st, n, base, 0);
      Ok(TArray(base, |n.dims|), c.st)
  }

  /** Dimensions `i..`: a bare `[]` is skipped; a missing initialiser reaches `typeof(null)`. */
  function CheckDimensions(st: CheckState, n: Node, base: Type, i: nat): (r: Step<()>)
    requires n.ArrayCreation? && i <= |n.dims|
    ensures Evolves(st, r.st) && Balanced(st, r)
    decreases n, 0, |n.dims| - i
  {
    if i == |n.dims| then Ok((), st)
    else
      var d := n.dims[i];
      match d.size
      case None => CheckDimensions(st, n, base, i + 1)
      case Some(size) =>
        var a :- TypeOf(st, size, false);
        var s1 := if !a.value.TInt? then Report(a.st, size.pos, SizeNotInt(a.value)) else a.st;
        match d.init
        case None => Crash(NullPointerException, s1)
        case Some(init) =>
          var b :- TypeOf(s1, init, false);
          var s2 := InitRule(b.st, init.pos, base, b.value);
          CheckDimensions(s2, n, base, i + 1)
  }

  /** The two initialiser checks of `checkArrayCreation`, the first with its `Arrayy` message. */
  function InitRule(st: CheckState, at: Pos, base: Type, initType: Type): (r: CheckState)
    ensures Evolves(st, r) && r.scopes == st.scopes
  {
    if initType.TArray? then
      if !Equals(initType.elem, base) then
        Report(st, at, ArrayInitElementMismatch(base, initType.elem))
      else st
    else if !Equals(initType, base) then
      Report(st, at, ArrayInitMismatch(base, initType))
    else st
  }

  // ---------------------------------------------------------------- programs

  /** `predeclare`: a top-level name is bound unless it is reserved or already bound (`_` excepted). */
  function Predeclare(st: CheckState, decl: Node): (r: Step<()>)
    ensures Evolves(st, r.st)
  {
    match decl
    case VarDecl(pos, id, typeElem, _) => PredeclareName(st, pos, id, typeElem, "variable", "Variable")
    case FunDecl(pos, idList, functionType, _) => PredeclareName(st, pos, idList.id, functionType, "function", "Function")
    case _ => Ok((), st)
  }

  /** The branch `predeclare` shares between variables and functions; the words differ. */
  function PredeclareName(st: CheckState, pos: Pos, id: string, typeNode: Node, what: string, What: string): (r: Step<()>)
    ensures Evolves(st, r.st)
  {
    if Reserved(id) then Ok((), Report(st, pos, ReservedName(id, what)))
    else if Bound(st.scopes, id) && id != "_" then Ok((), Report(st, pos, AlreadyDefined(What, id)))
    else
      match ConvertType(typeNode)
      case Failure(e) => Crash(e, st)
      case Success(t) => Add(st, id, t)
  }

  function PredeclareFrom(st: CheckState, decls: seq<Node>, i: nat): (r: Step<()>)
    requires i <= |decls|
    ensures Evolves(st, r.st)
    decreases |decls| - i
  {
    if i == |decls| then Ok((), st)
    else
      var a :- Predeclare(st, decls[i]);
      PredeclareFrom(a.st, decls, i + 1)
  }

  function CheckDeclarationsFrom(st: CheckState, decls: seq<Node>, i: nat): (r: Step<()>)
    requires i <= |decls|
    ensures Evolves(st, r.st)
    decreases |decls| - i
  {
    if i == |decls| then Ok((), st)
    else
      var a :- TypeOf(st, decls[i], true);
      CheckDeclarationsFrom(a.st, decls, i + 1)
  }

  function SummaryLine(st: CheckState): string {
    "Program has " + IntToString(st.totalErrors) + " semantic error(s), " + IntToString(st.maxErrors)
    + " or less, were shown above has requested."
  }

  /** `typeof(program, ..)`: all names first, then every declaration, then the verdict. */
  function CheckProgram(st: CheckState, p: Program): (r: Step<Type>)
    ensures r.Ok? ==> r.value == TUnit && !r.st.hasErrors
    ensures r.st.maxErrors == st.maxErrors && r.st.totalErrors >= st.totalErrors
  {
    var a :- PredeclareFrom(st, p.declarations, 0);
    var b :- CheckDeclarationsFrom(a.st, p.declarations, 0);
    if b.st.hasErrors then Crash(RuntimeException(""), b.st.(trailer := b.st.trailer + SummaryLine(b.st)))
    else Ok(TUnit, b.st)
  }

  /** `registerInternalError(message)`. */
  function RegisterInternalError(st: CheckState, message: string): (r: CheckState)
    ensures r.hasErrors && r.trailer == st.trailer + message + "\n"
    ensures r.diagnostics == st.diagnostics && r.totalErrors == st.totalErrors
  {
    st.(hasErrors := true, trailer := st.trailer + message + "\n")
  }

  /** A semantic check as the test driver runs it: a thrown exception becomes an internal error. */
  function RunChecker(p: Program, maxErrors: int): (r: CheckState)
    ensures r.maxErrors == maxErrors
    ensures CheckProgram(Initial(maxErrors), p).Crash? ==> r.hasErrors
    ensures CheckProgram(Initial(maxErrors), p).Ok? ==> !r.hasErrors
  {
    match CheckProgram(Initial(maxErrors), p)
    case Ok(_, s) => s
    case Crash(e, s) => RegisterInternalError(s, Message(e))
  }
}
