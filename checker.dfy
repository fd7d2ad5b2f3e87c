/**
 * The `Checker` class itself: the same fields, updated in place, with one method per
 * Java method. Each method is proved to leave the object in the state, and to return
 * the result or exception, that the corresponding function of module `Typing` computes.
 */
module CheckerImpl {
  import opened Wrappers
  import opened Types
  import opened Ast
  import opened Java
  import opened Scopes
  import opened Typing

  /** How a Java method ends: it returns a value or throws. */
  datatype Outcome<T> = Returned(value: T) | Thrown(exc: Exception)

  function AsStep<T>(o: Outcome<T>, st: CheckState): Step<T> {
    match o
    case Returned(v) => Ok(v, st)
    case Thrown(e) => Crash(e, st)
  }

  class Checker {
    const context: Context
    var hasErrors: bool
    /** The stored part of `errorMessages`, one entry per stored `error` call. */
    var diagnostics: seq<Diagnostic>
    /** The rest of `errorMessages`: the summary line and internal errors. */
    var trailer: string
    var maxErrors: int
    var totalErrors: int

    function State(): CheckState
      reads this, context
    {
      CheckState(context.scopes, hasErrors, diagnostics, trailer, maxErrors, totalErrors)
    }

    constructor (maxErrors: int)
      ensures State() == Initial(maxErrors)
      ensures fresh(context)
    {
      context := new Context();
      hasErrors := false;
      diagnostics := [];
      trailer := "";
      this.maxErrors := maxErrors;
      totalErrors := 0;
    }

    function GetErrorMessage(): string
      reads this, context
    {
      ErrorMessage(State())
    }

    method RegisterInternalError(message: string)
      modifies this
      ensures State() == Typing.RegisterInternalError(old(State()), message)
    {
      hasErrors := true;
      trailer := trailer + message + "\n";
    }

    method Error(at: Pos, issue: Issue)
      modifies this
      ensures State() == Report(old(State()), at, issue)
    {
      if totalErrors < maxErrors {
        hasErrors := true;
        diagnostics := diagnostics + [Diagnostic(at.line, at.column, issue)];
      }
      totalErrors := totalErrors + 1;
    }

    /** `typeof(program, true)`: both passes over the declarations, then the verdict. */
    method CheckProgram(p: Program) returns (outcome: Outcome<Type>)
      modifies this, context
      ensures AsStep(outcome, State()) == Typing.CheckProgram(old(State()), p)
    {
      var decls := p.declarations;
      var i := 0;
      while i < |decls|
        invariant 0 <= i <= |decls|
        invariant PredeclareFrom(old(State()), decls, 0) == PredeclareFrom(State(), decls, i)
      {
        var o := Predeclare(decls[i]);
        if o.Thrown? {
          return Thrown(o.exc);
        }
        i := i + 1;
      }
      ghost var afterPredeclare := State();
      i := 0;
      while i < |decls|
        invariant 0 <= i <= |decls|
        invariant CheckDeclarationsFrom(afterPredeclare, decls, 0) == CheckDeclarationsFrom(State(), decls, i)
      {
        var o := TypeOf(decls[i], true);
        if o.Thrown? {
          return Thrown(o.exc);
        }
        i := i + 1;
      }
      if hasErrors {
        trailer := trailer + SummaryLine(State());
        return Thrown(RuntimeException(""));
      }
      return Returned(TUnit);
    }

    method Predeclare(decl: Node) returns (outcome: Outcome<()>)
      modifies this, context
      ensures AsStep(outcome, State()) == Typing.Predeclare(old(State()), decl)
    {
      match decl
      case VarDecl(pos, id, typeElem, _) =>
        outcome := PredeclareName(pos, id, typeElem, "variable", "Variable");
      case FunDecl(pos, idList, functionType, _) =>
        outcome := PredeclareName(pos, idList.id, functionType, "function", "Function");
      case _ =>
        outcome := Returned(());
    }

    method PredeclareName(pos: Pos, id: string, typeNode: Node, what: string, What: string) returns (outcome: Outcome<()>)
      modifies this, context
      ensures AsStep(outcome, State()) == Typing.PredeclareName(old(State()), pos, id, typeNode, what, What)
    {
      if Reserved(id) {
        Error(pos, ReservedName(id, what));
        return Returned(());
      }
      var known := context.Contains(id);
      if known && id != "_" {
        Error(pos, AlreadyDefined(What, id));
        return Returned(());
      }
      var t := ConvertType(typeNode);
      if t.Failure? {
        return Thrown(t.error);
      }
      var thrown := context.Add(id, t.value);
      if thrown.Some? {
        return Thrown(thrown.value);
      }
      return Returned(());
    }

    method TypeOf(n: Node, isDeclaration: bool) returns (outcome: Outcome<Type>)
      modifies this, context
      ensures AsStep(outcome, State()) == Typing.TypeOf(old(State()), n, isDeclaration)
      decreases n, 4
    {
      match n
      case VarDecl(_, _, _, _) => outcome := CheckVariableDeclaration(n);
      case FunDecl(_, _, _, _) => outcome := CheckFunctionDeclaration(n);
      case Exprs(_, _, _) => outcome := CheckExpressions(n);
      case Let(_, _, _, _) => outcome := CheckLet(n);
      case If(_, _, _, _) => outcome := CheckIf(n);
      case SetExpr(_, _, _) => outcome := CheckSet(n);
      case While(_, _, _) => outcome := CheckWhile(n);
      case Call(_, _, _) => outcome := CheckCall(n);
      case Binary(_, _, _, _) => outcome := CheckBinaryOp(n);
      case ArrayAccess(_, _, _) => outcome := CheckArrayAccess(n);
      case ArrayCreation(_, _, _) => outcome := CheckArrayCreation(n);
      case Paren(_, inner) =>
        assert Typing.TypeOf(State(), n, isDeclaration) == Typing.TypeOf(State(), inner, false);
        outcome := TypeOf(inner, false);
      case IntLit(_, _) => outcome := Returned(TInt);
      case BoolLit(_, _) => outcome := Returned(TBool);
      case StringLit(_, _) => outcome := Returned(TString);
      case NullLit(_) => outcome := Returned(TUnit);
      case Identifier(_, _) => outcome := TypeOfIdentifier(n, isDeclaration);
      case Unary(_, _, _) => outcome := CheckUnary(n);
      case _ => outcome := Thrown(RuntimeException("Unknown expression type: " + ClassName(n)));
    }

    method TypeOfIdentifier(n: Node, isDeclaration: bool) returns (outcome: Outcome<Type>)
      requires n.Identifier?
      modifies this
      ensures AsStep(outcome, State()) == Typing.TypeOfIdentifier(old(State()), n, isDeclaration)
    {
      var t := context.Get(n.name);
      if t.None? {
        Error(n.pos, UndeclaredVariable(n.name));
        return Returned(TUndeclared);
      }
      if n.name == "_" && !isDeclaration {
        Error(n.pos, WildcardInExpression);
        return Returned(TUndeclared);
      }
      return Returned(t.value);
    }

    method CheckUnary(n: Node) returns (outcome: Outcome<Type>)
      requires n.Unary?
      modifies this, context
      ensures AsStep(outcome, State()) == Typing.CheckUnary(old(State()), n)
      decreases n, 3
    {
      var operand := TypeOf(n.operand, false);
      if operand.Thrown? {
        return operand;
      }
      var operandType := operand.value;
      if n.op == "!" {
        if !operandType.TBool? {
          Error(n.pos, NotOperandNotBool(operandType));
        }
        return Returned(TBool);
      } else if n.op == "-" {
        if !operandType.TInt? {
          Error(n.pos, MinusOperandNotInt(operandType));
        }
        if n.operand.IntLit? {
          var negated := -(n.operand.value as int);
          if !(IntMin <= negated <= IntMax) {
            Error(n.pos, MinusOutOfBounds(negated));
          }
        }
        return Returned(TInt);
      }
      Error(n.pos, UnknownUnaryOperator(n.op));
      return Returned(TUnit);
    }

    method CheckVariableDeclaration(n: Node) returns (outcome: Outcome<Type>)
      requires n.VarDecl?
      modifies this, context
      ensures AsStep(outcome, State()) == Typing.CheckVariableDeclaration(old(State()), n)
      decreases n, 3
    {
      var declared := ConvertType(n.typeElem);
      if declared.Failure? {
        return Thrown(declared.error);
      }
      context.Remove(n.id);
      context.BeginScope();
      var actual := TypeOf(n.exprs, false);
      if actual.Thrown? {
        return actual;
      }
      var _ := context.EndScope();
      var thrown := context.Add(n.id, declared.value);
      if thrown.Some? {
        return Thrown(thrown.value);
      }
      if !Equals(declared.value, actual.value) {
        Error(LastPos(n.exprs), VariableTypeMismatch(declared.value, actual.value));
      }
      return Returned(TUnit);
    }

    method CheckFunctionDeclaration(n: Node) returns (outcome: Outcome<Type>)
      requires n.FunDecl?
      modifies this, context
      ensures AsStep(outcome, State()) == Typing.CheckFunctionDeclaration(old(State()), n)
      decreases n, 3
    {
      var declared := ConvertType(n.functionType);
      if declared.Failure? {
        return Thrown(declared.error);
      }
      context.BeginScope();
      var bound := BindParameters(n, declared.value);
      if bound.Thrown? {
        return Thrown(bound.exc);
      }
      var actual := TypeOf(n.exprs, false);
      if actual.Thrown? {
        return actual;
      }
      var _ := context.EndScope();
      if declared.value.TFunction? && !Equals(declared.value.to, actual.value) {
        Error(LastPos(n.exprs), ReturnTypeMismatch(declared.value.to, actual.value));
      }
      return Returned(TUnit);
    }

    /** The parameter half of `checkFunctionDeclaration`. */
    method BindParameters(n: Node, declared: Type) returns (outcome: Outcome<()>)
      requires n.FunDecl?
      modifies this, context
      ensures AsStep(outcome, State()) == Typing.BindParameters(old(State()), n, declared)
    {
      if !declared.TFunction? {
        return Returned(());
      }
      var from := declared.from;
      var ids := n.idList.ids;
      if from.TMulti? {
        var types := from.types;
        if |types| != |ids| {
          Error(n.pos, ParameterCountMismatch);
        }
        ghost var start := State();
        var i := 0;
        while i < |ids|
          invariant 0 <= i <= |ids|
          invariant BindEach(start, ids, types, 0) == BindEach(State(), ids, types, i)
        {
          var param := ids[i];
          if param.Identifier? && !Reserved(param.name) && i >= |types| {
            return Thrown(IndexOutOfBoundsException(i, |types|));
          }
          var o := BindParameter(param, if i < |types| then types[i] else TUndeclared);
          if o.Thrown? {
            return o;
          }
          i := i + 1;
        }
        return Returned(());
      }
      if |ids| != 1 {
        Error(n.pos, SingleParameterExpected);
      }
      if ids == [] {
        return Thrown(IndexOutOfBoundsException(0, 0));
      }
      outcome := BindParameter(ids[0], from);
    }

    method BindParameter(param: Node, t: Type) returns (outcome: Outcome<()>)
      modifies this, context
      ensures AsStep(outcome, State()) == Typing.BindParameter(old(State()), param, t)
    {
      if !param.Identifier? {
        return Returned(());
      }
      if Reserved(param.name) {
        Error(param.pos, ReservedParameter(param.name));
        return Returned(());
      }
      var thrown := context.Add(param.name, t);
      if thrown.Some? {
        return Thrown(thrown.value);
      }
      return Returned(());
    }

    method CheckExpressions(n: Node) returns (outcome: Outcome<Type>)
      requires n.Exprs?
      modifies this, context
      ensures AsStep(outcome, State()) == Typing.CheckExpressions(old(State()), n)
      decreases n, 3
    {
      var list := n.items;
      if list == [] {
        return Returned(TUnit);
      }
      var i := 0;
      while i < |list| - 1
        invariant 0 <= i <= |list| - 1
        invariant TypeOfFrom(old(State()), n, 0) == TypeOfFrom(State(), n, i)
      {
        var o := TypeOf(list[i], false);
        if o.Thrown? {
          return o;
        }
        i := i + 1;
      }
      outcome := TypeOf(list[|list| - 1], false);
    }

    method CheckLet(n: Node) returns (outcome: Outcome<Type>)
      requires n.Let?
      modifies this, context
      ensures AsStep(outcome, State()) == Typing.CheckLet(old(State()), n)
      decreases n, 3
    {
      var declared := ConvertType(n.letType);
      if declared.Failure? {
        return Thrown(declared.error);
      }
      context.BeginScope();
      var result := TypeOf(n.block, false);
      if result.Thrown? {
        return result;
      }
      var _ := context.EndScope();
      if !Equals(declared.value, result.value) {
        Error(LastPos(n.block), LetTypeMismatch(declared.value, result.value));
      }
      var thrown := context.Add(n.id, declared.value);
      if thrown.Some? {
        return Thrown(thrown.value);
      }
      return Returned(TUnit);
    }

    method CheckIf(n: Node) returns (outcome: Outcome<Type>)
      requires n.If?
      modifies this, context
      ensures AsStep(outcome, State()) == Typing.CheckIf(old(State()), n)
      decreases n, 3
    {
      context.BeginScope();
      var cond := TypeOf(n.cond, false);
      if cond.Thrown? {
        return cond;
      }
      var _ := context.EndScope();
      if !cond.value.TBool? {
        Error(n.cond.pos, IfConditionNotBool(cond.value));
      }
      outcome := CheckBranches(n);
    }

    method CheckBranches(n: Node) returns (outcome: Outcome<Type>)
      requires n.If?
      modifies this, context
      ensures AsStep(outcome, State()) == Typing.CheckBranches(old(State()), n)
      decreases n, 2
    {
      context.BeginScope();
      var thenType := TypeOf(n.thenBranch, false);
      if thenType.Thrown? {
        return thenType;
      }
      var _ := context.EndScope();
      var elseType := Returned(TUnit);
      if n.elseBranch.Some? {
        context.BeginScope();
        elseType := TypeOf(n.elseBranch.value, false);
        if elseType.Thrown? {
          return elseType;
        }
        var _ := context.EndScope();
      }
      if !Equals(thenType.value, elseType.value) {
        Error(n.pos, BranchTypeMismatch(thenType.value, elseType.value));
      }
      return thenType;
    }

    method CheckSet(n: Node) returns (outcome: Outcome<Type>)
      requires n.SetExpr?
      modifies this, context
      ensures AsStep(outcome, State()) == Typing.CheckSet(old(State()), n)
      decreases n, 3
    {
      var lhsType := TypeOf(n.lhs, false);
      if lhsType.Thrown? {
        return lhsType;
      }
      var rhsType := TypeOf(n.rhs, false);
      if rhsType.Thrown? {
        return rhsType;
      }
      if !Equals(lhsType.value, rhsType.value) {
        Error(n.pos, AssignmentTypeMismatch(lhsType.value, rhsType.value));
      }
      return Returned(TUnit);
    }

    method CheckWhile(n: Node) returns (outcome: Outcome<Type>)
      requires n.While?
      modifies this, context
      ensures AsStep(outcome, State()) == Typing.CheckWhile(old(State()), n)
      decreases n, 3
    {
      var cond := TypeOf(n.cond, false);
      if cond.Thrown? {
        return cond;
      }
      if !cond.value.TBool? {
        Error(n.cond.pos, WhileConditionNotBool(cond.value));
      }
      context.BeginScope();
      var body := TypeOf(n.body, false);
      if body.Thrown? {
        return body;
      }
      var _ := context.EndScope();
      return Returned(TUnit);
    }

    method CheckCall(n: Node) returns (outcome: Outcome<Type>)
      requires n.Call?
      modifies this, context
      ensures AsStep(outcome, State()) == Typing.CheckCall(old(State()), n)
      decreases n, 3
    {
      if n.id == "print" || n.id == "length" {
        var result := if n.id == "print" then TUnit else TInt;
        if !n.args.Exprs? {
          return Thrown(ClassCastException(ClassName(n.args)));
        }
        var args := n.args.items;
        if |args| != 1 {
          Error(n.pos, BuiltinArity(n.id, |args|));
          return Returned(result);
        }
        var argType := TypeOf(args[0], false);
        if argType.Thrown? {
          return argType;
        }
        if n.id == "length" && !argType.value.TArray? {
          Error(args[0].pos, LengthNotArray(argType.value));
        }
        return Returned(result);
      }
      outcome := CheckUserCall(n);
    }

    method CheckUserCall(n: Node) returns (outcome: Outcome<Type>)
      requires n.Call?
      modifies this, context
      ensures AsStep(outcome, State()) == Typing.CheckUserCall(old(State()), n)
      decreases n, 2
    {
      var t := context.Get(n.id);
      var failed := false;
      if t.None? {
        Error(n.pos, UndeclaredFunction(n.id));
        failed := true;
      }
      if !(t.Some? && t.value.TFunction?) {
        Error(n.pos, NotAFunction(n.id));
        failed := true;
      }
      if failed {
        return Returned(TUnit);
      }
      if !n.args.Exprs? {
        return Thrown(ClassCastException(ClassName(n.args)));
      }
      outcome := CheckCallArguments(n, t.value);
    }

    method CheckCallArguments(n: Node, fn: Type) returns (outcome: Outcome<Type>)
      requires n.Call? && n.args.Exprs? && fn.TFunction?
      modifies this, context
      ensures AsStep(outcome, State()) == Typing.CheckCallArguments(old(State()), n, fn)
      decreases n, 1
    {
      var args := n.args.items;
      if fn.from.TMulti? {
        var expectedTypes := fn.from.types;
        if |expectedTypes| != |args| {
          Error(n.pos, ArgumentCountMismatch(n.id, |expectedTypes|, |args|));
        }
        ghost var start := State();
        var i := 0;
        while i < |args|
          invariant 0 <= i <= |args|
          invariant CheckArguments(start, n, expectedTypes, 0) == CheckArguments(State(), n, expectedTypes, i)
        {
          var o := CheckArgument(n, expectedTypes, i);
          if o.Thrown? {
            return Thrown(o.exc);
          }
          i := i + 1;
        }
        return Returned(fn.to);
      }
      if |args| != 1 {
        Error(n.pos, SingleArgumentExpected(n.id, |args|));
      }
      if args == [] {
        return Thrown(IndexOutOfBoundsException(0, 0));
      }
      var actualArg := TypeOf(args[0], false);
      if actualArg.Thrown? {
        return actualArg;
      }
      if !Equals(fn.from, actualArg.value) {
        Error(args[0].pos, SingleArgumentMismatch(n.id, fn.from, actualArg.value));
      }
      return Returned(fn.to);
    }

    /** One pass of the argument loop of `checkCallFunction`. */
    method CheckArgument(n: Node, expectedTypes: seq<Type>, i: nat) returns (outcome: Outcome<()>)
      requires n.Call? && n.args.Exprs? && i < |n.args.items|
      modifies this, context
      ensures outcome.Returned? ==>
        CheckArguments(old(State()), n, expectedTypes, i) == CheckArguments(State(), n, expectedTypes, i + 1)
      ensures outcome.Thrown? ==> CheckArguments(old(State()), n, expectedTypes, i) == Crash(outcome.exc, State())
      decreases n, 0
    {
      var arg := n.args.items[i];
      var actualArg := TypeOf(arg, false);
      if actualArg.Thrown? {
        return Thrown(actualArg.exc);
      }
      if i >= |expectedTypes| {
        return Thrown(IndexOutOfBoundsException(i, |expectedTypes|));
      }
      if !Equals(actualArg.value, expectedTypes[i]) {
        Error(arg.pos, ArgumentMismatch(i + 1, n.id, expectedTypes[i], actualArg.value));
      }
      return Returned(());
    }

    method CheckBinaryOp(n: Node) returns (outcome: Outcome<Type>)
      requires n.Binary?
      modifies this, context
      ensures AsStep(outcome, State()) == Typing.CheckBinaryOp(old(State()), n)
      decreases n, 3
    {
      var leftType := TypeOf(n.left, false);
      if leftType.Thrown? {
        return leftType;
      }
      var rightType := TypeOf(n.right, false);
      if rightType.Thrown? {
        return rightType;
      }
      outcome := ApplyBinaryRule(n, leftType.value, rightType.value);
    }

    /** The operator switch of `checkBinaryOp`. */
    method ApplyBinaryRule(n: Node, left: Type, right: Type) returns (outcome: Outcome<Type>)
      requires n.Binary?
      modifies this
      ensures AsStep(outcome, State()) == BinaryRule(old(State()), n, left, right)
    {
      if n.op in ArithmeticOps {
        if !(left.TInt? && right.TInt?) {
          Error(n.pos, ArithmeticOperands(left, right));
        }
        return Returned(TInt);
      } else if n.op in RelationalOps {
        if !(left.TInt? && right.TInt?) {
          Error(n.pos, RelationalOperands(n.op, left, right));
        }
        return Returned(TBool);
      } else if n.op in EqualityOps {
        if !Equals(left, right) {
          Error(n.pos, EqualityOperands(n.op, left, right));
        }
        return Returned(TBool);
      } else if n.op in LogicalOps {
        if !(left.TBool? && right.TBool?) {
          Error(n.pos, LogicalOperands(left, right));
        }
        return Returned(TBool);
      }
      return Thrown(RuntimeException("Unknown binary operator: " + n.op));
    }

    method CheckArrayAccess(n: Node) returns (outcome: Outcome<Type>)
      requires n.ArrayAccess?
      modifies this, context
      ensures AsStep(outcome, State()) == Typing.CheckArrayAccess(old(State()), n)
      decreases n, 3
    {
      var i := 0;
      while i < |n.indices|
        invariant 0 <= i <= |n.indices|
        invariant CheckIndices(old(State()), n, 0) == CheckIndices(State(), n, i)
      {
        var index := n.indices[i];
        var indexType := TypeOf(index, false);
        if indexType.Thrown? {
          return Thrown(indexType.exc);
        }
        if !indexType.value.TInt? {
          Error(index.pos, IndexNotInt(indexType.value));
        }
        i := i + 1;
      }
      var arrayType := TypeOf(n.arrayExpr, false);
      if arrayType.Thrown? {
        return arrayType;
      }
      outcome := ApplyAccessRule(n, arrayType.value);
    }

    /** What `checkArrayAccess` concludes from the type of the accessed expression. */
    method ApplyAccessRule(n: Node, arrayType: Type) returns (outcome: Outcome<Type>)
      requires n.ArrayAccess?
      modifies this
      ensures AsStep(outcome, State()) == AccessRule(old(State()), n, arrayType)
    {
      if !arrayType.TArray? {
        Error(n.pos, NotAnArray(arrayType));
        return Returned(TUndeclared);
      }
      var remainingDimensions := arrayType.dims - |n.indices|;
      if remainingDimensions < 0 {
        Error(n.pos, TooManyIndices(arrayType.dims));
        return Returned(TUndeclared);
      }
      if remainingDimensions == 0 {
        return Returned(arrayType.elem);
      }
      return Returned(TArray(arrayType.elem, remainingDimensions));
    }

    method CheckArrayCreation(n: Node) returns (outcome: Outcome<Type>)
      requires n.ArrayCreation?
      modifies this, context
      ensures AsStep(outcome, State()) == Typing.CheckArrayCreation(old(State()), n)
      decreases n, 3
    {
      var base := BasicTypeOf(n.baseType);
      if base.None? {
        return Thrown(RuntimeException("Unknown array base type: " + n.baseType));
      }
      var baseType := base.value;
      var i := 0;
      while i < |n.dims|
        invariant 0 <= i <= |n.dims|
        invariant CheckDimensions(old(State()), n, baseType, 0) == CheckDimensions(State(), n, baseType, i)
      {
        var o := CheckDimension(n, baseType, i);
        if o.Thrown? {
          return Thrown(o.exc);
        }
        i := i + 1;
      }
      return Returned(TArray(baseType, |n.dims|));
    }

    /** One pass of the dimension loop of `checkArrayCreation`. */
    method CheckDimension(n: Node, baseType: Type, i: nat) returns (outcome: Outcome<()>)
      requires n.ArrayCreation? && i < |n.dims|
      modifies this, context
      ensures outcome.Returned? ==>
        CheckDimensions(old(State()), n, baseType, i) == CheckDimensions(State(), n, baseType, i + 1)
      ensures outcome.Thrown? ==> CheckDimensions(old(State()), n, baseType, i) == Crash(outcome.exc, State())
      decreases n, 2
    {
      var dim := n.dims[i];
      if dim.size.None? {
        return Returned(());
      }
      var sizeType := TypeOf(dim.size.value, false);
      if sizeType.Thrown? {
        return Thrown(sizeType.exc);
      }
      if !sizeType.value.TInt? {
        Error(dim.size.value.pos, SizeNotInt(sizeType.value));
      }
      if dim.init.None? {
        return Thrown(NullPointerException);
      }
      var initType := TypeOf(dim.init.value, false);
      if initType.Thrown? {
        return Thrown(initType.exc);
      }
      CheckInitialiser(dim.init.value.pos, baseType, initType.value);
      return Returned(());
    }

    /** The two initialiser checks in the loop of `checkArrayCreation`. */
    method CheckInitialiser(at: Pos, base: Type, initType: Type)
      modifies this
      ensures State() == InitRule(old(State()), at, base, initType)
    {
      var isarray := false;
      if initType.TArray? {
        isarray := true;
        if !Equals(initType.elem, base) {
          Error(at, ArrayInitElementMismatch(base, initType.elem));
        }
      }
      if !Equals(initType, base) && !isarray {
        Error(at, ArrayInitMismatch(base, initType));
      }
    }
  }

  /** The semantic-test path of the driver: check, and turn a thrown exception into an internal error. */
  method SemanticCheck(p: Program, maxErrors: int) returns (checker: Checker)
    ensures checker.State() == RunChecker(p, maxErrors)
  {
    checker := new Checker(maxErrors);
    var outcome := checker.CheckProgram(p);
    if outcome.Thrown? {
      checker.RegisterInternalError(Message(outcome.exc));
    }
  }
}
