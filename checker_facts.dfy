/**
 * What the semantic checker guarantees, proved about the functions of module `Typing`
 * (and so, through the proofs of module `CheckerImpl`, about the `Checker` class).
 */
module CheckerFacts {
  import opened Wrappers
  import opened Types
  import opened Ast
  import opened Java
  import opened Scopes
  import opened Typing
  import opened Text
  import Printer

  function Min(a: int, b: int): int {
    if a < b then a else b
  }

  // ---------------------------------------------------------------- the error cap

  /**
   * Starting from a fresh checker, the log holds exactly as many diagnostics as the cap
   * lets through: one per `error` call while fewer than `maxErrors` were made, none once
   * the cap is reached, and none at all when `maxErrors` is not positive.
   */
  lemma StoredFromInitial(maxErrors: int, b: CheckState)
    requires Evolves(Initial(maxErrors), b)
    ensures |b.diagnostics| == if maxErrors <= 0 then 0 else Min(b.totalErrors, maxErrors)
    ensures b.hasErrors <==> b.diagnostics != []
  {
  }

  lemma EvolvesTransitive(a: CheckState, b: CheckState, c: CheckState)
    requires Evolves(a, b) && Evolves(b, c)
    ensures Evolves(a, c)
  {
  }

  // ---------------------------------------------------------------- programs

  /** The two passes of `typeof(program, ..)`: every predeclaration, then every declaration. */
  function Passes(st: CheckState, p: Program): (r: Step<()>)
    ensures Evolves(st, r.st)
  {
    var a :- PredeclareFrom(st, p.declarations, 0);
    CheckDeclarationsFrom(a.st, p.declarations, 0)
  }

  /**
   * A program fails with the summary line exactly when some diagnostic was stored; an
   * exception in either pass is passed on unchanged.
   */
  lemma ProgramVerdict(maxErrors: int, p: Program)
    ensures var c := Passes(Initial(maxErrors), p);
      var r := CheckProgram(Initial(maxErrors), p);
      && (c.Crash? ==> r == Crash(c.exc, c.st))
      && (c.Ok? && c.st.diagnostics == [] ==> r == Ok(TUnit, c.st))
      && (c.Ok? && c.st.diagnostics != [] ==>
            r == Crash(RuntimeException(""), c.st.(trailer := SummaryLine(c.st))))
  {
    var c := Passes(Initial(maxErrors), p);
    StoredFromInitial(maxErrors, c.st);
    assert c.st.trailer == "";
  }

  /**
   * After the semantic test, at most `maxErrors` diagnostics are stored, and `hasErrors`
   * (which alone decides whether code is generated) is set exactly when something was
   * written to the error messages.
   */
  lemma RunCheckerVerdict(p: Program, maxErrors: int)
    ensures var s := RunChecker(p, maxErrors);
      && |s.diagnostics| == (if maxErrors <= 0 then 0 else Min(s.totalErrors, maxErrors))
      && (s.hasErrors <==> s.diagnostics != [] || s.trailer != "")
  {
    var c := Passes(Initial(maxErrors), p);
    StoredFromInitial(maxErrors, c.st);
    ProgramVerdict(maxErrors, p);
  }

  // ---------------------------------------------------------------- predeclaration

  predicate Declares(decl: Node) {
    decl.VarDecl? || decl.FunDecl?
  }

  function DeclaredName(decl: Node): string
    requires Declares(decl)
  {
    if decl.VarDecl? then decl.id else decl.idList.id
  }

  /** `print` and `length` are refused as top-level names: one error, and nothing is bound. */
  lemma PredeclareReserved(st: CheckState, decl: Node)
    requires Declares(decl) && Reserved(DeclaredName(decl))
    ensures var r := Predeclare(st, decl);
      r.Ok? && r.st.scopes == st.scopes && r.st.totalErrors == st.totalErrors + 1
  {
  }

  /** A name already bound (other than `_`) is refused: one error, and the first binding stays. */
  lemma PredeclareDuplicate(st: CheckState, decl: Node)
    requires Declares(decl) && !Reserved(DeclaredName(decl))
    requires Bound(st.scopes, DeclaredName(decl)) && DeclaredName(decl) != "_"
    ensures var r := Predeclare(st, decl);
      r.Ok? && r.st.scopes == st.scopes && r.st.totalErrors == st.totalErrors + 1
  {
  }

  /** A binding made in the innermost scope keeps every name that was bound still bound. */
  lemma BindKeepsBound(scopes: seq<Scope>, id: string, t: Type, x: string)
    requires scopes != [] && Bound(scopes, x)
    ensures Bound(Bind(scopes, id, t), x)
  {
    var k :| 0 <= k < |scopes| && x in scopes[k];
    assert x in Bind(scopes, id, t)[k];
  }

  /** One predeclaration in a non-empty context: what it binds and what it leaves alone. */
  lemma PredeclareStep(st: CheckState, decl: Node)
    requires st.scopes != []
    ensures var r := Predeclare(st, decl);
      r.Ok? ==>
        && r.st.scopes != []
        && (Declares(decl) && !Reserved(DeclaredName(decl)) ==> Bound(r.st.scopes, DeclaredName(decl)))
        && (forall x :: Bound(st.scopes, x) ==> Bound(r.st.scopes, x))
        && (forall x :: x != "_" && Bound(st.scopes, x) ==> Lookup(r.st.scopes, x) == Lookup(st.scopes, x))
  {
    var r := Predeclare(st, decl);
    if r.Ok? && r.st.scopes != st.scopes {
      var id := DeclaredName(decl);
      var t := ConvertType(if decl.VarDecl? then decl.typeElem else decl.functionType).value;
      assert r.st.scopes == Bind(st.scopes, id, t);
      BindThenLookup(st.scopes, id, t);
      LookupIffBound(r.st.scopes, id);
      forall x | Bound(st.scopes, x)
        ensures Bound(r.st.scopes, x)
      {
        BindKeepsBound(st.scopes, id, t, x);
      }
      forall x | x != "_" && Bound(st.scopes, x)
        ensures Lookup(r.st.scopes, x) == Lookup(st.scopes, x)
      {
        if x != id {
          BindOther(st.scopes, id, t, x);
        }
      }
    }
  }

  /**
   * The predeclaration pass: once it completes, every declared name that is not reserved
   * is bound, and the binding of a name (other than `_`) bound before it is unchanged, so
   * a repeated name keeps its first type.
   */
  lemma {:induction false} PredeclarePass(st: CheckState, decls: seq<Node>, i: nat)
    requires i <= |decls| && st.scopes != []
    requires PredeclareFrom(st, decls, i).Ok?
    ensures var r := PredeclareFrom(st, decls, i);
      && (forall k :: i <= k < |decls| && Declares(decls[k]) && !Reserved(DeclaredName(decls[k])) ==>
            Bound(r.st.scopes, DeclaredName(decls[k])))
      && (forall x :: Bound(st.scopes, x) ==> Bound(r.st.scopes, x))
      && (forall x :: x != "_" && Bound(st.scopes, x) ==> Lookup(r.st.scopes, x) == Lookup(st.scopes, x))
    decreases |decls| - i
  {
    if i < |decls| {
      var a := Predeclare(st, decls[i]);
      PredeclareStep(st, decls[i]);
      PredeclarePass(a.st, decls, i + 1);
      var r := PredeclareFrom(st, decls, i);
      assert r == PredeclareFrom(a.st, decls, i + 1);
      forall x | x != "_" && Bound(st.scopes, x)
        ensures Lookup(r.st.scopes, x) == Lookup(st.scopes, x)
      {
        assert Bound(a.st.scopes, x);
      }
    }
  }

  // ---------------------------------------------------------------- expressions

  /** Arithmetic operators yield Int and every other operator Bool, whatever errors the operands caused. */
  lemma BinaryResultType(st: CheckState, n: Node, isDeclaration: bool)
    requires n.Binary?
    ensures var r := TypeOf(st, n, isDeclaration);
      r.Ok? ==> r.value == if n.op in ArithmeticOps then TInt else TBool
  {
  }

  /**
   * Once both operands are typed: an unknown operator throws, and `==`/`!=` report an
   * error exactly when the operand types differ.
   */
  lemma BinaryOperatorRule(st: CheckState, n: Node, isDeclaration: bool)
    requires n.Binary?
    ensures var a := TypeOf(st, n.left, false);
      a.Ok? ==> var b := TypeOf(a.st, n.right, false);
      b.Ok? ==>
        var r := TypeOf(st, n, isDeclaration);
        && (r.Crash? <==> n.op !in ArithmeticOps + RelationalOps + EqualityOps + LogicalOps)
        && (r.Crash? ==> r.exc == RuntimeException("Unknown binary operator: " + n.op) && r.st == b.st)
        && (n.op in EqualityOps ==> (r.st.totalErrors == b.st.totalErrors + 1 <==> a.value != b.value))
  {
    var a := TypeOf(st, n.left, false);
    if a.Ok? {
      var b := TypeOf(a.st, n.right, false);
      if b.Ok? {
        assert TypeOf(st, n, isDeclaration) == BinaryRule(b.st, n, a.value, b.value);
      }
    }
  }

  /**
   * Array access with `d` dimensions and `k` indices: a non-array or `k > d` is an error
   * of type Undeclared; `k == d` gives the element type and `k < d` an array of `d - k`
   * dimensions, both without an error.
   */
  lemma AccessTyping(st: CheckState, n: Node, isDeclaration: bool)
    requires n.ArrayAccess?
    ensures var c := CheckIndices(st, n, 0);
      c.Ok? ==> var a := TypeOf(c.st, n.arrayExpr, false);
      a.Ok? ==>
        var r := TypeOf(st, n, isDeclaration);
        var k := |n.indices|;
        && r.Ok?
        && (!a.value.TArray? ==> r.value == TUndeclared && r.st.totalErrors == a.st.totalErrors + 1)
        && (a.value.TArray? && a.value.dims < k ==>
              r.value == TUndeclared && r.st.totalErrors == a.st.totalErrors + 1)
        && (a.value.TArray? && a.value.dims == k ==> r == Ok(a.value.elem, a.st))
        && (a.value.TArray? && a.value.dims > k ==> r == Ok(TArray(a.value.elem, a.value.dims - k), a.st))
  {
  }

  /**
   * Unary minus on an integer literal has type Int, and reports an overflow exactly when
   * the literal exceeds 2^31, the magnitude of the smallest Java `int`.
   */
  lemma MinusLiteral(st: CheckState, n: Node, isDeclaration: bool)
    requires n.Unary? && n.op == "-" && n.operand.IntLit?
    ensures TypeOf(st, n, isDeclaration) ==
      Ok(TInt,
         if n.operand.value > 0x8000_0000 then Report(st, n.pos, MinusOutOfBounds(-(n.operand.value as int)))
         else st)
  {
    assert TypeOf(st, n.operand, false) == Ok(TInt, st);
  }

  /** `!` always has type Bool and `-` type Int; any other operator is reported and has type Unit. */
  lemma UnaryTyping(st: CheckState, n: Node, isDeclaration: bool)
    requires n.Unary?
    ensures var r := TypeOf(st, n, isDeclaration);
      r.Ok? ==>
        r.value == (if n.op == "!" then TBool else if n.op == "-" then TInt else TUnit)
    ensures var a := TypeOf(st, n.operand, false);
      a.Ok? && n.op != "!" && n.op != "-" ==>
        TypeOf(st, n, isDeclaration) == Ok(TUnit, Report(a.st, n.pos, UnknownUnaryOperator(n.op)))
  {
  }

  /**
   * The branches of an `if`: a missing else has type Unit, the result is the then-type,
   * and a mismatch is reported exactly when the two types differ.
   */
  lemma BranchTyping(st: CheckState, n: Node)
    requires n.If?
    ensures var t := TypeOf(BeginScope(st), n.thenBranch, false);
      t.Ok? ==> var e := CheckElse(EndScope(t.st), n);
      e.Ok? ==>
        var r := CheckBranches(st, n);
        && r.Ok? && r.value == t.value
        && (n.elseBranch.None? ==> e.value == TUnit)
        && (r.st.totalErrors == e.st.totalErrors + 1 <==> t.value != e.value)
        && (t.value == e.value ==> r.st == e.st)
  {
  }

  /** A condition that is not Bool is reported, at the condition, while the cap allows. */
  lemma IfConditionReported(st: CheckState, n: Node, isDeclaration: bool)
    requires n.If?
    ensures var c := TypeOf(BeginScope(st), n.cond, false);
      c.Ok? && !c.value.TBool? && c.st.totalErrors < c.st.maxErrors ==>
        var r := TypeOf(st, n, isDeclaration);
        |c.st.diagnostics| < |r.st.diagnostics|
        && r.st.diagnostics[|c.st.diagnostics|] == Diagnostic(n.cond.pos.line, n.cond.pos.column, IfConditionNotBool(c.value))
  {
    var c := TypeOf(BeginScope(st), n.cond, false);
    if c.Ok? && !c.value.TBool? && c.st.totalErrors < c.st.maxErrors {
      var s1 := Report(EndScope(c.st), n.cond.pos, IfConditionNotBool(c.value));
      assert TypeOf(st, n, isDeclaration) == CheckBranches(s1, n);
    }
  }

  /** A `let` binds its name, with the declared type, in the enclosing scope, after popping its own. */
  lemma LetBindsInEnclosingScope(st: CheckState, n: Node, isDeclaration: bool)
    requires n.Let?
    ensures var r := TypeOf(st, n, isDeclaration);
      r.Ok? ==>
        && ConvertType(n.letType).Success?
        && r.value == TUnit
        && |r.st.scopes| == |st.scopes|
        && Outer(r.st.scopes) == Outer(st.scopes)
        && Lookup(r.st.scopes, n.id) == Some(ConvertType(n.letType).value)
  {
    var r := TypeOf(st, n, isDeclaration);
    assert r == CheckLet(st, n);
    if r.Ok? {
      assert ConvertType(n.letType).Success?;
      var a := TypeOf(BeginScope(st), n.block, false);
      assert a.Ok?;
      var declared := ConvertType(n.letType).value;
      var e := EndScope(a.st);
      var s := if !Equals(declared, a.value) then Report(e, LastPos(n.block), LetTypeMismatch(declared, a.value)) else e;
      assert r.st.scopes == Bind(s.scopes, n.id, declared);
      BindThenLookup(s.scopes, n.id, declared);
    }
  }

  /**
   * A `let` whose type converts and whose block types: type Unit, and a mismatch
   * reported at the block's last item exactly when the declared type differs from the
   * block's, before the name is bound; a type that does not convert throws its exception.
   */
  lemma LetMismatch(st: CheckState, n: Node)
    requires n.Let?
    ensures ConvertType(n.letType).Failure? ==>
      CheckLet(st, n) == Crash(ConvertType(n.letType).error, st)
    ensures ConvertType(n.letType).Success? ==>
      var declared := ConvertType(n.letType).value;
      var a := TypeOf(BeginScope(st), n.block, false);
      a.Ok? && a.st.scopes != [] && a.st.scopes[1..] != [] ==>
        var e := EndScope(a.st);
        var r := CheckLet(st, n);
        && r.Ok? && r.value == TUnit
        && (r.st.totalErrors == e.totalErrors + 1 <==> declared != a.value)
        && (declared == a.value ==> r.st == e.(scopes := Bind(e.scopes, n.id, declared)))
        && (declared != a.value ==> ReportedFirst(e, r.st, LastPos(n.block), LetTypeMismatch(declared, a.value)))
  {
  }

  /**
   * The operand rules of `!` and `-`: `!` of a non-Bool is reported as such and anything
   * else keeps the state; `-` of a non-Int is reported as such, and, when the operand is
   * not a literal, that is its only report.
   */
  lemma UnaryOperandReports(st: CheckState, n: Node, isDeclaration: bool)
    requires n.Unary?
    ensures var a := TypeOf(st, n.operand, false);
      a.Ok? && n.op == "!" ==>
        var r := TypeOf(st, n, isDeclaration);
        && r.Ok? && r.value == TBool
        && (r.st.totalErrors == a.st.totalErrors + 1 <==> !a.value.TBool?)
        && (a.value.TBool? ==> r.st == a.st)
        && (!a.value.TBool? ==> ReportedFirst(a.st, r.st, n.pos, NotOperandNotBool(a.value)))
    ensures var a := TypeOf(st, n.operand, false);
      a.Ok? && n.op == "-" ==>
        var r := TypeOf(st, n, isDeclaration);
        && r.Ok? && r.value == TInt
        && (!a.value.TInt? ==> ReportedFirst(a.st, r.st, n.pos, MinusOperandNotInt(a.value)))
        && (!n.operand.IntLit? ==> (r.st.totalErrors == a.st.totalErrors + 1 <==> !a.value.TInt?))
        && (!n.operand.IntLit? && a.value.TInt? ==> r.st == a.st)
  {
    var a := TypeOf(st, n.operand, false);
    if a.Ok? {
      assert TypeOf(st, n, isDeclaration) == CheckUnary(st, n);
    }
  }

  /**
   * The operand rules of the binary operators, once both operands are typed: arithmetic
   * and relational operators report exactly when an operand is not Int, equality exactly
   * when the types differ, and logical operators exactly when an operand is not Bool;
   * each report is the first new diagnostic, and no report keeps the state.
   */
  lemma OperandReports(st: CheckState, n: Node, isDeclaration: bool)
    requires n.Binary?
    ensures var a := TypeOf(st, n.left, false);
      a.Ok? ==> var b := TypeOf(a.st, n.right, false);
      b.Ok? ==> OperandRule(b.st, n, a.value, b.value, TypeOf(st, n, isDeclaration))
  {
    var a := TypeOf(st, n.left, false);
    if a.Ok? {
      var b := TypeOf(a.st, n.right, false);
      if b.Ok? {
        assert TypeOf(st, n, isDeclaration) == BinaryRule(b.st, n, a.value, b.value);
        RuleReports(b.st, n, a.value, b.value);
      }
    }
  }

  /** What `OperandReports` states of the step `r` that follows the state `st` of typed operands. */
  predicate OperandRule(st: CheckState, n: Node, left: Type, right: Type, r: Step<Type>)
    requires n.Binary?
  {
    var ints := left.TInt? && right.TInt?;
    var bools := left.TBool? && right.TBool?;
    && (n.op in ArithmeticOps ==>
          && r.Ok?
          && (r.st.totalErrors == st.totalErrors + 1 <==> !ints)
          && (ints ==> r.st == st)
          && (!ints ==> ReportedFirst(st, r.st, n.pos, ArithmeticOperands(left, right))))
    && (n.op in RelationalOps ==>
          && r.Ok?
          && (r.st.totalErrors == st.totalErrors + 1 <==> !ints)
          && (ints ==> r.st == st)
          && (!ints ==> ReportedFirst(st, r.st, n.pos, RelationalOperands(n.op, left, right))))
    && (n.op in EqualityOps ==>
          && r.Ok?
          && (left == right ==> r.st == st)
          && (left != right ==> ReportedFirst(st, r.st, n.pos, EqualityOperands(n.op, left, right))))
    && (n.op in LogicalOps ==>
          && r.Ok?
          && (r.st.totalErrors == st.totalErrors + 1 <==> !bools)
          && (bools ==> r.st == st)
          && (!bools ==> ReportedFirst(st, r.st, n.pos, LogicalOperands(left, right))))
  }

  /** `OperandRule` holds of `BinaryRule` (a proof helper of `OperandReports`). */
  lemma RuleReports(st: CheckState, n: Node, left: Type, right: Type)
    requires n.Binary?
    ensures OperandRule(st, n, left, right, BinaryRule(st, n, left, right))
  {
  }

  /** A variable declaration binds its name, with the declared type, in the current scope. */
  lemma VarDeclBinds(st: CheckState, n: Node, isDeclaration: bool)
    requires n.VarDecl?
    ensures var r := TypeOf(st, n, isDeclaration);
      r.Ok? ==>
        && ConvertType(n.typeElem).Success?
        && r.value == TUnit
        && |r.st.scopes| == |st.scopes|
        && Outer(r.st.scopes) == Outer(st.scopes)
        && Lookup(r.st.scopes, n.id) == Some(ConvertType(n.typeElem).value)
  {
    var r := TypeOf(st, n, isDeclaration);
    assert r == CheckVariableDeclaration(st, n);
    if r.Ok? {
      assert ConvertType(n.typeElem).Success?;
      var declared := ConvertType(n.typeElem).value;
      var s1 := st.(scopes := Unbind(st.scopes, n.id));
      var a := TypeOf(BeginScope(s1), n.exprs, false);
      assert a.Ok?;
      var e := EndScope(a.st);
      assert Add(e, n.id, declared).Ok?;
      BindThenLookup(e.scopes, n.id, declared);
    }
  }

  // ---------------------------------------------------------------- reports

  /**
   * `after` holds `issue` at `at` as the first diagnostic beyond those of `before`,
   * whenever the cap still allowed `before` to store one.
   */
  predicate ReportedFirst(before: CheckState, after: CheckState, at: Pos, issue: Issue) {
    before.totalErrors < before.maxErrors ==>
      |before.diagnostics| < |after.diagnostics|
      && after.diagnostics[|before.diagnostics|] == Diagnostic(at.line, at.column, issue)
  }

  /** A report followed by any evolution keeps that report first among the new diagnostics. */
  lemma ReportThenEvolve(st: CheckState, at: Pos, issue: Issue, after: CheckState)
    requires Evolves(Report(st, at, issue), after)
    ensures ReportedFirst(st, after, at, issue)
    ensures after.totalErrors >= st.totalErrors + 1
  {
    var s := Report(st, at, issue);
    if st.totalErrors < st.maxErrors {
      assert s.diagnostics[|st.diagnostics|] == Diagnostic(at.line, at.column, issue);
      assert after.diagnostics[..|s.diagnostics|] == s.diagnostics;
    }
  }

  // ---------------------------------------------------------------- names

  /**
   * An identifier that is bound (and is not `_` used as a value) has its bound type and
   * reports nothing; one that is unbound, or `_` used as a value, has type Undeclared
   * and is reported once, as undeclared or as a misplaced wildcard.
   */
  lemma IdentifierTyping(st: CheckState, n: Node, isDeclaration: bool)
    requires n.Identifier?
    ensures var b := Lookup(st.scopes, n.name);
      var usable := b.Some? && (n.name != "_" || isDeclaration);
      var r := TypeOfIdentifier(st, n, isDeclaration);
      && r.Ok? && r.st.scopes == st.scopes
      && (usable ==> r.st == st && Some(r.value) == b && Bound(st.scopes, n.name))
      && (!usable ==>
            && r.value == TUndeclared && r.st.totalErrors == st.totalErrors + 1
            && ReportedFirst(st, r.st, n.pos, if b.None? then UndeclaredVariable(n.name) else WildcardInExpression))
      && (!Bound(st.scopes, n.name) ==> !usable)
  {
    LookupIffBound(st.scopes, n.name);
  }

  // ---------------------------------------------------------------- declarations

  /**
   * A variable declaration whose type converts and whose body types: type Unit, and a
   * mismatch reported at the body's last item exactly when the declared type differs
   * from the body's; a type that does not convert throws its exception.
   */
  lemma VarDeclMismatch(st: CheckState, n: Node)
    requires n.VarDecl?
    ensures ConvertType(n.typeElem).Failure? ==>
      CheckVariableDeclaration(st, n) == Crash(ConvertType(n.typeElem).error, st)
    ensures ConvertType(n.typeElem).Success? ==>
      var declared := ConvertType(n.typeElem).value;
      var a := TypeOf(BeginScope(st.(scopes := Unbind(st.scopes, n.id))), n.exprs, false);
      a.Ok? && a.st.scopes != [] && a.st.scopes[1..] != [] ==>
        var f := EndScope(a.st).(scopes := Bind(EndScope(a.st).scopes, n.id, declared));
        var r := CheckVariableDeclaration(st, n);
        && r.Ok? && r.value == TUnit
        && (r.st.totalErrors == f.totalErrors + 1 <==> declared != a.value)
        && (declared == a.value ==> r.st == f)
        && (declared != a.value ==> ReportedFirst(f, r.st, LastPos(n.exprs), VariableTypeMismatch(declared, a.value)))
  {
  }

  /**
   * A function declaration whose type converts and whose parameters bind and body types:
   * type Unit, and a return-type mismatch reported at the body's last item exactly when
   * the declared return type differs from the body's type.
   */
  lemma FunctionDeclarationTyping(st: CheckState, n: Node)
    requires n.FunDecl?
    ensures ConvertType(n.functionType).Failure? ==>
      CheckFunctionDeclaration(st, n) == Crash(ConvertType(n.functionType).error, st)
    ensures ConvertType(n.functionType).Success? ==>
      var declared := ConvertType(n.functionType).value;
      var p := BindParameters(BeginScope(st), n, declared);
      p.Ok? ==> var a := TypeOf(p.st, n.exprs, false);
      a.Ok? ==>
        var e := EndScope(a.st);
        var r := CheckFunctionDeclaration(st, n);
        var mismatch := declared.TFunction? && declared.to != a.value;
        && r.Ok? && r.value == TUnit
        && (r.st.totalErrors == e.totalErrors + 1 <==> mismatch)
        && (!mismatch ==> r.st == e)
        && (mismatch ==> ReportedFirst(e, r.st, LastPos(n.exprs), ReturnTypeMismatch(declared.to, a.value)))
  {
  }

  /** A parameter that gets a binding: an identifier whose name is not reserved. */
  predicate Bindable(p: Node) {
    p.Identifier? && !Reserved(p.name)
  }

  /** No identifier among parameters `i..` has the name `x`. */
  predicate Unnamed(ids: seq<Node>, i: nat, x: string) {
    forall k :: i <= k < |ids| && ids[k].Identifier? ==> ids[k].name != x
  }

  /** The number of reserved identifiers among parameters `i..`. */
  function ReservedCount(ids: seq<Node>, i: nat): nat
    requires i <= |ids|
    decreases |ids| - i
  {
    if i == |ids| then 0
    else (if ids[i].Identifier? && Reserved(ids[i].name) then 1 else 0) + ReservedCount(ids, i + 1)
  }

  /**
   * One parameter: anything but an identifier is skipped; a reserved name is reported
   * and not bound; any other identifier is bound to `t` in the innermost scope.
   */
  lemma BindParameterTyping(st: CheckState, p: Node, t: Type)
    ensures var r := BindParameter(st, p, t);
      && (!p.Identifier? ==> r == Ok((), st))
      && (p.Identifier? && Reserved(p.name) ==>
            r.Ok? && r.st.scopes == st.scopes && r.st.totalErrors == st.totalErrors + 1
            && ReportedFirst(st, r.st, p.pos, ReservedParameter(p.name)))
      && (Bindable(p) ==> (r.Ok? <==> st.scopes != []))
      && (Bindable(p) && r.Ok? ==> r.st == st.(scopes := Bind(st.scopes, p.name, t)) && Lookup(r.st.scopes, p.name) == Some(t))
  {
    if Bindable(p) && st.scopes != [] {
      BindThenLookup(st.scopes, p.name, t);
    }
  }

  /** The parameter type `BindParameter` gets at position `i`: the listed one, or a placeholder never read. */
  function ListedType(types: seq<Type>, i: nat): Type {
    if i < |types| then types[i] else TUndeclared
  }

  /**
   * One step of the loop over listed parameter types that does not throw: the
   * innermost scope gains the parameter's binding if it gets one, a reserved name adds
   * one report, and the loop goes on from the next parameter.
   */
  lemma BindEachStep(st: CheckState, ids: seq<Node>, types: seq<Type>, i: nat)
    requires i < |ids| && st.scopes != [] && !(Bindable(ids[i]) && |types| <= i)
    ensures var b := BindParameter(st, ids[i], ListedType(types, i));
      && b.Ok? && |b.st.scopes| == |st.scopes| && b.st.scopes[1..] == st.scopes[1..]
      && b.st.scopes[0] == (if Bindable(ids[i]) then st.scopes[0][ids[i].name := types[i]] else st.scopes[0])
      && b.st.totalErrors == st.totalErrors + (if ids[i].Identifier? && Reserved(ids[i].name) then 1 else 0)
      && BindEach(st, ids, types, i) == BindEach(b.st, ids, types, i + 1)
  {
    BindParameterTyping(st, ids[i], ListedType(types, i));
  }

  /** The loop over listed parameter types throws exactly when a parameter that gets a binding has no listed type. */
  lemma {:induction false} BindEachThrows(st: CheckState, ids: seq<Node>, types: seq<Type>, i: nat)
    requires i <= |ids| && st.scopes != []
    ensures var r := BindEach(st, ids, types, i);
      && (r.Crash? <==> exists k :: i <= k < |ids| && Bindable(ids[k]) && |types| <= k)
      && (r.Crash? ==> r.exc.IndexOutOfBoundsException? && r.exc.length == |types|)
    decreases |ids| - i
  {
    if i < |ids| && !(Bindable(ids[i]) && |types| <= i) {
      BindEachStep(st, ids, types, i);
      var b := BindParameter(st, ids[i], ListedType(types, i));
      BindEachThrows(b.st, ids, types, i + 1);
      if BindEach(st, ids, types, i).Crash? {
        var k :| i + 1 <= k < |ids| && Bindable(ids[k]) && |types| <= k;
      }
    }
  }

  /**
   * The loop over listed parameter types, when it does not throw, changes only the
   * innermost scope; names no parameter from `i` on mentions keep their bindings there,
   * and each reserved name is reported once.
   */
  lemma {:induction false} BindEachKeeps(st: CheckState, ids: seq<Node>, types: seq<Type>, i: nat)
    requires i <= |ids| && st.scopes != []
    ensures var r := BindEach(st, ids, types, i);
      r.Ok? ==>
        && |r.st.scopes| == |st.scopes| && r.st.scopes[1..] == st.scopes[1..]
        && r.st.totalErrors == st.totalErrors + ReservedCount(ids, i)
        && (forall x :: x in st.scopes[0] && Unnamed(ids, i, x) ==>
              x in r.st.scopes[0] && r.st.scopes[0][x] == st.scopes[0][x])
    decreases |ids| - i
  {
    if i < |ids| && !(Bindable(ids[i]) && |types| <= i) {
      BindEachStep(st, ids, types, i);
      var b := BindParameter(st, ids[i], ListedType(types, i));
      BindEachKeeps(b.st, ids, types, i + 1);
    }
  }

  /**
   * The loop over listed parameter types, when it does not throw: each parameter that
   * gets a binding is bound, at its last occurrence, to its listed type in the
   * innermost scope.
   */
  lemma {:induction false} BindEachBinds(st: CheckState, ids: seq<Node>, types: seq<Type>, i: nat)
    requires i <= |ids| && st.scopes != []
    ensures var r := BindEach(st, ids, types, i);
      r.Ok? ==>
        forall k :: i <= k < |ids| && Bindable(ids[k]) && Unnamed(ids, k + 1, ids[k].name) ==>
          k < |types| && ids[k].name in r.st.scopes[0] && r.st.scopes[0][ids[k].name] == types[k]
    decreases |ids| - i
  {
    BindEachThrows(st, ids, types, i);
    if i < |ids| && !(Bindable(ids[i]) && |types| <= i) {
      BindEachStep(st, ids, types, i);
      var b := BindParameter(st, ids[i], ListedType(types, i));
      BindEachBinds(b.st, ids, types, i + 1);
      BindEachKeeps(b.st, ids, types, i + 1);
    }
  }

  /**
   * The parameters of a function: with a list of parameter types, a count mismatch is
   * reported first and then each parameter is bound as `BindEachBinds` states; with one
   * parameter type, more or fewer than one parameter is reported first, no parameter
   * at all throws, and otherwise the one parameter is bound to that type.
   */
  lemma BindParametersTyping(st: CheckState, n: Node, declared: Type)
    requires n.FunDecl? && st.scopes != []
    ensures var ids := n.idList.ids;
      var r := BindParameters(st, n, declared);
      && (!declared.TFunction? ==> r == Ok((), st))
      && (declared.TFunction? && declared.from.TMulti? && |declared.from.types| != |ids| ==>
            ReportedFirst(st, r.st, n.pos, ParameterCountMismatch))
      && (declared.TFunction? && declared.from.TMulti? ==>
            (r.Crash? <==> exists k :: 0 <= k < |ids| && Bindable(ids[k]) && |declared.from.types| <= k))
      && (declared.TFunction? && declared.from.TMulti? && r.Ok? ==>
            forall k :: 0 <= k < |ids| && Bindable(ids[k]) && Unnamed(ids, k + 1, ids[k].name) ==>
              Lookup(r.st.scopes, ids[k].name) == Some(declared.from.types[k]))
      && (declared.TFunction? && !declared.from.TMulti? && |ids| != 1 ==>
            ReportedFirst(st, r.st, n.pos, SingleParameterExpected))
      && (declared.TFunction? && !declared.from.TMulti? && ids == [] ==>
            r.Crash? && r.exc == IndexOutOfBoundsException(0, 0))
      && (declared.TFunction? && !declared.from.TMulti? && ids != [] && Bindable(ids[0]) ==>
            r.Ok? && Lookup(r.st.scopes, ids[0].name) == Some(declared.from))
  {
    var ids := n.idList.ids;
    if declared.TFunction? {
      var from := declared.from;
      if from.TMulti? {
        var s := if |from.types| != |ids| then Report(st, n.pos, ParameterCountMismatch) else st;
        BindEachThrows(s, ids, from.types, 0);
        BindEachBinds(s, ids, from.types, 0);
        var r := BindEach(s, ids, from.types, 0);
        if |from.types| != |ids| {
          ReportThenEvolve(st, n.pos, ParameterCountMismatch, r.st);
        }
        if r.Ok? {
          forall k | 0 <= k < |ids| && Bindable(ids[k]) && Unnamed(ids, k + 1, ids[k].name)
            ensures Lookup(r.st.scopes, ids[k].name) == Some(from.types[k])
          {
            assert r.st.scopes[0][ids[k].name] == from.types[k];
          }
        }
      } else {
        var s := if |ids| != 1 then Report(st, n.pos, SingleParameterExpected) else st;
        if |ids| != 1 {
          ReportThenEvolve(st, n.pos, SingleParameterExpected, BindParameters(st, n, declared).st);
        }
        if ids != [] {
          BindParameterTyping(s, ids[0], from);
        }
      }
    }
  }

  // ---------------------------------------------------------------- sequences, `set`, `while`

  /** Items `i..j-1` of a sequence typed in order, stopping at the first exception. */
  function CheckItems(st: CheckState, n: Node, i: nat, j: nat): (r: Step<()>)
    requires n.Exprs? && i <= j <= |n.items|
    ensures Evolves(st, r.st)
    decreases j - i
  {
    if i == j then Ok((), st)
    else
      var a :- TypeOf(st, n.items[i], false);
      CheckItems(a.st, n, i + 1, j)
  }

  /**
   * Items `i..` of a sequence: every item before the last is typed in order and its
   * type dropped, and the last item's type is the result; an exception on the way is
   * the result.
   */
  lemma {:induction false} ItemsThenLast(st: CheckState, n: Node, i: nat)
    requires n.Exprs? && i < |n.items|
    ensures var p := CheckItems(st, n, i, |n.items| - 1);
      TypeOfFrom(st, n, i) ==
        if p.Crash? then Crash(p.exc, p.st) else TypeOf(p.st, n.items[|n.items| - 1], false)
    decreases |n.items| - i
  {
    if i < |n.items| - 1 {
      var a := TypeOf(st, n.items[i], false);
      if a.Ok? {
        ItemsThenLast(a.st, n, i + 1);
      }
    }
  }

  /** A sequence: empty, type Unit with nothing reported; otherwise the last item's type after the earlier items. */
  lemma SequenceTyping(st: CheckState, n: Node)
    requires n.Exprs?
    ensures n.items == [] ==> CheckExpressions(st, n) == Ok(TUnit, st)
    ensures n.items != [] ==>
      var p := CheckItems(st, n, 0, |n.items| - 1);
      CheckExpressions(st, n) ==
        if p.Crash? then Crash(p.exc, p.st) else TypeOf(p.st, n.items[|n.items| - 1], false)
  {
    if n.items != [] {
      ItemsThenLast(st, n, 0);
    }
  }

  /**
   * `set`: type Unit, a mismatch reported at the `set` exactly when the two sides'
   * types differ, and nothing else reported after both sides are typed.
   */
  lemma SetTyping(st: CheckState, n: Node)
    requires n.SetExpr?
    ensures var a := TypeOf(st, n.lhs, false);
      a.Ok? ==> var b := TypeOf(a.st, n.rhs, false);
      b.Ok? ==>
        var r := CheckSet(st, n);
        && r.Ok? && r.value == TUnit
        && (r.st.totalErrors == b.st.totalErrors + 1 <==> a.value != b.value)
        && (a.value == b.value ==> r.st == b.st)
        && (a.value != b.value ==> ReportedFirst(b.st, r.st, n.pos, AssignmentTypeMismatch(a.value, b.value)))
  {
  }

  /** `while`: type Unit, and a condition that is not Bool is reported at the condition before the body is typed. */
  lemma WhileTyping(st: CheckState, n: Node)
    requires n.While?
    ensures var c := TypeOf(st, n.cond, false);
      c.Ok? ==>
        var r := CheckWhile(st, n);
        && (r.Ok? ==> r.value == TUnit)
        && (!c.value.TBool? ==> ReportedFirst(c.st, r.st, n.cond.pos, WhileConditionNotBool(c.value)))
        && (!c.value.TBool? ==> r.st.totalErrors >= c.st.totalErrors + 1)
  {
    var c := TypeOf(st, n.cond, false);
    if c.Ok? && !c.value.TBool? {
      var s := Report(c.st, n.cond.pos, WhileConditionNotBool(c.value));
      var b := TypeOf(BeginScope(s), n.body, false);
      ReportThenEvolve(c.st, n.cond.pos, WhileConditionNotBool(c.value), CheckWhile(st, n).st);
    }
  }

  // ---------------------------------------------------------------- calls

  /**
   * `print` and `length`: type Unit and Int. A non-list argument node throws a cast
   * exception; more or fewer than one argument is reported at the call; with one
   * argument, `length` of a non-array is reported at the argument, and nothing else is.
   */
  lemma BuiltinCallTyping(st: CheckState, n: Node)
    requires n.Call? && (n.id == "print" || n.id == "length")
    ensures var r := CheckCall(st, n);
      var result := if n.id == "print" then TUnit else TInt;
      && (!n.args.Exprs? ==> r == Crash(ClassCastException(ClassName(n.args)), st))
      && (n.args.Exprs? && |n.args.items| != 1 ==>
            && r.Ok? && r.value == result && r.st.totalErrors == st.totalErrors + 1
            && ReportedFirst(st, r.st, n.pos, BuiltinArity(n.id, |n.args.items|)))
      && (n.args.Exprs? && |n.args.items| == 1 ==>
            var a := TypeOf(st, n.args.items[0], false);
            a.Ok? ==>
              && r.Ok? && r.value == result
              && (r.st.totalErrors == a.st.totalErrors + 1 <==> n.id == "length" && !a.value.TArray?)
              && (n.id == "length" && !a.value.TArray? ==>
                    ReportedFirst(a.st, r.st, n.args.items[0].pos, LengthNotArray(a.value)))
              && (!(n.id == "length" && !a.value.TArray?) ==> r.st == a.st))
  {
  }

  /**
   * A call of any other name: the bound function's return type when the name is bound
   * to a function; otherwise type Unit, with the name reported as not a function, and
   * first as undeclared when it is unbound.
   */
  lemma UserCallTyping(st: CheckState, n: Node)
    requires n.Call? && n.id != "print" && n.id != "length"
    ensures var ty := Lookup(st.scopes, n.id);
      var r := CheckCall(st, n);
      && (r.Ok? ==> r.value == if ty.Some? && ty.value.TFunction? then ty.value.to else TUnit)
      && (ty.None? ==>
            && r.Ok? && r.st.totalErrors == st.totalErrors + 2
            && ReportedFirst(st, r.st, n.pos, UndeclaredFunction(n.id)))
      && (ty.Some? && !ty.value.TFunction? ==>
            && r.Ok? && r.st.totalErrors == st.totalErrors + 1
            && ReportedFirst(st, r.st, n.pos, NotAFunction(n.id)))
      && (ty.Some? && ty.value.TFunction? && !n.args.Exprs? ==> r == Crash(ClassCastException(ClassName(n.args)), st))
  {
    var ty := Lookup(st.scopes, n.id);
    assert CheckCall(st, n) == CheckUserCall(st, n);
    if ty.Some? && ty.value.TFunction? && n.args.Exprs? {
      assert CheckUserCall(st, n) == CheckCallArguments(st, n, ty.value);
      CallArgumentReports(st, n, ty.value);
    }
    if ty.None? {
      var s1 := Report(st, n.pos, UndeclaredFunction(n.id));
      ReportThenEvolve(st, n.pos, UndeclaredFunction(n.id), Report(s1, n.pos, NotAFunction(n.id)));
    }
  }

  /**
   * The arguments of a call against a signature: the result is the signature's return
   * type. With a list of parameter types, a count mismatch is reported first. With one
   * parameter type, more or fewer than one argument is reported first, none throws, and
   * the first argument's type is reported, at that argument, when it differs.
   */
  lemma CallArgumentReports(st: CheckState, n: Node, fn: Type)
    requires n.Call? && n.args.Exprs? && fn.TFunction?
    ensures var r := CheckCallArguments(st, n, fn);
      var args := n.args.items;
      && (r.Ok? ==> r.value == fn.to)
      && (fn.from.TMulti? && |fn.from.types| != |args| ==>
            ReportedFirst(st, r.st, n.pos, ArgumentCountMismatch(n.id, |fn.from.types|, |args|)))
      && (!fn.from.TMulti? && |args| != 1 ==> ReportedFirst(st, r.st, n.pos, SingleArgumentExpected(n.id, |args|)))
      && (!fn.from.TMulti? && args == [] ==> r.Crash? && r.exc == IndexOutOfBoundsException(0, 0))
      && (!fn.from.TMulti? && |args| == 1 ==>
            var a := TypeOf(st, args[0], false);
            a.Ok? ==>
              && r.Ok?
              && (r.st.totalErrors == a.st.totalErrors + 1 <==> fn.from != a.value)
              && (fn.from != a.value ==> ReportedFirst(a.st, r.st, args[0].pos, SingleArgumentMismatch(n.id, fn.from, a.value))))
  {
    var args := n.args.items;
    var r := CheckCallArguments(st, n, fn);
    if fn.from.TMulti? && |fn.from.types| != |args| {
      ReportThenEvolve(st, n.pos, ArgumentCountMismatch(n.id, |fn.from.types|, |args|), r.st);
    }
    if !fn.from.TMulti? && |args| != 1 {
      ReportThenEvolve(st, n.pos, SingleArgumentExpected(n.id, |args|), r.st);
    }
  }

  /**
   * Argument `i` against a list of parameter types: past the end of the list it throws
   * once typed; otherwise a mismatch is reported at the argument, with its 1-based
   * position, before the next argument is checked.
   */
  lemma ArgumentReports(st: CheckState, n: Node, expected: seq<Type>, i: nat)
    requires n.Call? && n.args.Exprs? && i < |n.args.items|
    ensures var arg := n.args.items[i];
      var a := TypeOf(st, arg, false);
      var r := CheckArguments(st, n, expected, i);
      && (a.Crash? ==> r == Crash(a.exc, a.st))
      && (a.Ok? && |expected| <= i ==> r == Crash(IndexOutOfBoundsException(i, |expected|), a.st))
      && (a.Ok? && i < |expected| && a.value == expected[i] ==> r == CheckArguments(a.st, n, expected, i + 1))
      && (a.Ok? && i < |expected| && a.value != expected[i] ==>
            ReportedFirst(a.st, r.st, arg.pos, ArgumentMismatch(i + 1, n.id, expected[i], a.value)))
  {
    var arg := n.args.items[i];
    var a := TypeOf(st, arg, false);
    if a.Ok? && i < |expected| && a.value != expected[i] {
      ReportThenEvolve(a.st, arg.pos, ArgumentMismatch(i + 1, n.id, expected[i], a.value), CheckArguments(st, n, expected, i).st);
    }
  }

  // ---------------------------------------------------------------- arrays

  /** Index `i` of an access: an index that is not Int is reported at the index before the next one is checked. */
  lemma IndexReported(st: CheckState, n: Node, i: nat)
    requires n.ArrayAccess? && i < |n.indices|
    ensures var index := n.indices[i];
      var a := TypeOf(st, index, false);
      var r := CheckIndices(st, n, i);
      && (a.Crash? ==> r == Crash(a.exc, a.st))
      && (a.Ok? && a.value.TInt? ==> r == CheckIndices(a.st, n, i + 1))
      && (a.Ok? && !a.value.TInt? ==> ReportedFirst(a.st, r.st, index.pos, IndexNotInt(a.value)))
  {
    var index := n.indices[i];
    var a := TypeOf(st, index, false);
    if a.Ok? && !a.value.TInt? {
      ReportThenEvolve(a.st, index.pos, IndexNotInt(a.value), CheckIndices(st, n, i).st);
    }
  }

  /**
   * Array creation: an unknown base type throws; otherwise, once the dimensions check,
   * the type is an array of the base type with one dimension per bracket pair.
   */
  lemma ArrayCreationTyping(st: CheckState, n: Node)
    requires n.ArrayCreation?
    ensures var r := CheckArrayCreation(st, n);
      && (BasicTypeOf(n.baseType).None? ==> r == Crash(RuntimeException("Unknown array base type: " + n.baseType), st))
      && (BasicTypeOf(n.baseType).Some? ==>
            var c := CheckDimensions(st, n, BasicTypeOf(n.baseType).value, 0);
            && (r.Ok? <==> c.Ok?)
            && (r.Ok? ==> r.value == TArray(BasicTypeOf(n.baseType).value, |n.dims|) && r.st == c.st))
  {
  }

  /**
   * Dimension `i` of an array creation: a bare `[]` is skipped, and a size followed by
   * no initialiser throws a null-pointer exception once the size is typed.
   */
  lemma DimensionShape(st: CheckState, n: Node, base: Type, i: nat)
    requires n.ArrayCreation? && i < |n.dims|
    ensures var d := n.dims[i];
      var r := CheckDimensions(st, n, base, i);
      && (d.size.None? ==> r == CheckDimensions(st, n, base, i + 1))
      && (d.size.Some? && d.init.None? && TypeOf(st, d.size.value, false).Ok? ==>
            r.Crash? && r.exc == NullPointerException)
  {
  }

  /** Dimension `i` of an array creation: a size that is not Int is reported at the size. */
  lemma DimensionReports(st: CheckState, n: Node, base: Type, i: nat)
    requires n.ArrayCreation? && i < |n.dims| && n.dims[i].size.Some?
    ensures var size := n.dims[i].size.value;
      var a := TypeOf(st, size, false);
      a.Ok? && !a.value.TInt? ==>
        ReportedFirst(a.st, CheckDimensions(st, n, base, i).st, size.pos, SizeNotInt(a.value))
  {
    var size := n.dims[i].size.value;
    var a := TypeOf(st, size, false);
    if a.Ok? && !a.value.TInt? {
      ReportThenEvolve(a.st, size.pos, SizeNotInt(a.value), CheckDimensions(st, n, base, i).st);
    }
  }

  /**
   * An initialiser against the base type: an array initialiser is reported when its
   * element type differs, any other when its type differs; nothing is reported otherwise.
   */
  lemma InitRuleReports(st: CheckState, at: Pos, base: Type, initType: Type)
    ensures var r := InitRule(st, at, base, initType);
      var bad := if initType.TArray? then initType.elem != base else initType != base;
      && (r.totalErrors == st.totalErrors + 1 <==> bad)
      && (!bad ==> r == st)
      && (initType.TArray? && bad ==> ReportedFirst(st, r, at, ArrayInitElementMismatch(base, initType.elem)))
      && (!initType.TArray? && bad ==> ReportedFirst(st, r, at, ArrayInitMismatch(base, initType)))
  {
  }

  // ---------------------------------------------------------------- type syntax

  /** Type syntax with no one-element type list: each node denotes a type of the same shape. */
  predicate PlainTypeSyntax(n: Node) {
    match n
    case BasicType(_, _) => true
    case ArrayType(_, b, _) => PlainTypeSyntax(b)
    case FunctionType(_, p, r) => PlainTypeSyntax(p) && PlainTypeSyntax(r)
    case TypeList(_, ts) => |ts| != 1 && forall i :: 0 <= i < |ts| ==> PlainTypeSyntax(ts[i])
    case _ => false
  }

  /** `convertType` over a list converts each element on its own. */
  lemma {:induction false} ConvertEachAt(ns: seq<Node>)
    requires ConvertEach(ns).Success?
    ensures forall k :: 0 <= k < |ns| ==>
              ConvertType(ns[k]).Success? && ConvertEach(ns).value[k] == ConvertType(ns[k]).value
  {
    if ns != [] {
      ConvertEachAt(ns[1..]);
      forall k | 0 <= k < |ns|
        ensures ConvertType(ns[k]).Success? && ConvertEach(ns).value[k] == ConvertType(ns[k]).value
      {
        if k > 0 {
          assert ns[k] == ns[1..][k - 1];
        }
      }
    }
  }

  /**
   * A type annotation that `convertType` accepts denotes a type whose `toString` is the
   * annotation as the AST prints it (at indent 0), so diagnostics name types exactly as
   * they were written; only a one-element type list prints without its parentheses.
   */
  lemma {:induction false} TypeSyntaxRendering(n: Node)
    requires PlainTypeSyntax(n) && ConvertType(n).Success?
    ensures ToString(ConvertType(n).value) == Printer.Print(n, 0)
  {
    match n
    case BasicType(_, _) =>
      BasicRendering(n);
    case ArrayType(_, b, _) =>
      TypeSyntaxRendering(b);
      ArrayRendering(n);
    case FunctionType(_, p, r) =>
      TypeSyntaxRendering(p);
      TypeSyntaxRendering(r);
      FunctionRendering(n);
    case TypeList(_, ts) =>
      ConvertEachAt(ts);
      forall k | 0 <= k < |ts|
        ensures ToString(ConvertType(ts[k]).value) == Printer.Print(ts[k], 0)
      {
        TypeSyntaxRendering(ts[k]);
      }
      ListRendering(n);
  }

  lemma BasicRendering(n: Node)
    requires n.BasicType? && ConvertType(n).Success?
    ensures ToString(ConvertType(n).value) == Printer.Print(n, 0)
  {
  }

  lemma ArrayRendering(n: Node)
    requires n.ArrayType? && ConvertType(n).Success?
    requires ToString(ConvertType(n.base).value) == Printer.Print(n.base, 0)
    ensures ToString(ConvertType(n).value) == Printer.Print(n, 0)
  {
  }

  lemma FunctionRendering(n: Node)
    requires n.FunctionType? && ConvertType(n).Success?
    requires ToString(ConvertType(n.params).value) == Printer.Print(n.params, 0)
    requires ToString(ConvertType(n.returnType).value) == Printer.Print(n.returnType, 0)
    ensures ToString(ConvertType(n).value) == Printer.Print(n, 0)
  {
  }

  lemma ListRendering(n: Node)
    requires n.TypeList? && |n.types| != 1 && ConvertType(n).Success?
    requires forall k :: 0 <= k < |n.types| ==>
               ConvertType(n.types[k]).Success? && ConvertEach(n.types).value[k] == ConvertType(n.types[k]).value
    requires forall k :: 0 <= k < |n.types| ==> ToString(ConvertType(n.types[k]).value) == Printer.Print(n.types[k], 0)
    ensures ToString(ConvertType(n).value) == Printer.Print(n, 0)
  {
    var ts := n.types;
    var vs := ConvertEach(ts).value;
    var names := seq(|vs|, i requires 0 <= i < |vs| => ToString(vs[i]));
    forall k | 0 <= k < |ts|
      ensures names[k] == Printer.PrintEach(ts, 0)[k]
    {
      Printer.PrintEachAt(ts, 0, k);
    }
    assert names == Printer.PrintEach(ts, 0);
    assert ConvertType(n).value == TMulti(vs);
  }
}
