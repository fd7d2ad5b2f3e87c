# AGUDA compiler core in Dafny

This project models the core of the AGUDA compiler, a Java compiler from the small
expression language AGUDA to LLVM IR text. It covers the three stages after parsing:

* **Printing.** The AST nodes render themselves with `print(indent)`. The reference
  function is `Printer.Print`, and the loops of the list-shaped nodes are methods proved
  equal to it.
* **Semantic checking.** `aguda.checker.Checker` walks the tree with a scoped symbol
  table (`aguda.context.Context`). It reports type errors, capped by `maxErrors`, and
  throws on unknown syntax.
  * Module `Typing` says what every checker method computes. Each is a function from the
    checker state before the call to the type returned and the state after it, or the
    exception thrown and the state at the throw.
  * Class `CheckerImpl.Checker` holds the Java fields and updates them in place. Each
    method is proved to end exactly as its `Typing` function says.
  * Module `CheckerFacts` proves what the checker guarantees: the error cap and the
    verdict, predeclaration, the typing rules, scoping, and how type annotations render.
* **Code generation.** `CodeGenerator`, `GenerateExpr` and `GenerateCondExpr` turn a
  checked program into LLVM text.
  * Modules `Lowering` (expressions and conditions) and `Emission` (declarations and
    `generate`) say what is generated, as functions over a `GenState` value.
  * Class `Generator.CodeGenerator` holds the Java fields and updates them in place.
    Each of its methods is proved to agree with those functions.
  * `LoweringFacts` and `EmissionFacts` prove the properties of the generated code: the
    shape of each construct, label threading and jump targets, distinct register and
    label names, one-time helper definitions, the error cap, and output order.

Generated code is a sequence of pieces (`Ir.Piece`). `Ir.Render` gives the exact
Java string, so jump targets and label definitions can be stated about the pieces.

Java semantics that matter are written out:

* **Null.** A Java `null` is an `Option`. String concatenation renders null as `null`
  (function `Text.J`).
* **Exceptions.** The exceptions a method throws are values (`Java.Exception`), returned
  in a `Step` or a `Gen` result.
* **Integer bounds.** The checker's `int` bounds are written as constants.

Where the language description and the code disagree, the model follows the code:

* `let` compares the type of its body with the declared type (`Checker.java:306-314`).
* Two `Undeclared` types are equal.
* Arrays reach the final `else` of `generateExpr`. That branch returns null code and a
  null value, with no diagnostic (`GenerateExpr.java:541-543`).
* With `maxErrors <= 0` the checker counts errors but stores none. `hasErrors` then stays
  false, so such a program passes on to code generation.

## Model

| member | source | states |
|---|---|---|
| `Types.Equals` | src/aguda/types/ArrayTypeChecker.java:21-24 | the `equals` of every type class (instanceof test, then element type and dimensions, domain and range, lists pairwise) holds exactly when the two types are equal |
| `Types.ToString` | src/aguda/types/MultiTypeList.java:25-27 | a type's name is never empty; the names themselves are stated by `Types.LeafNames`, `ArrayRendering` and `MultiRendering` |
| `Types.LeafNames` | src/aguda/types/IntTypeChecker.java:10-12 | the five leaf types render as `Int`, `Bool`, `String`, `Unit`, `Undeclared` |
| `Types.ArrayRendering` | src/aguda/types/ArrayTypeChecker.java:27-29 | an array type renders as its element type followed by exactly one `[]` per dimension |
| `Types.MultiRendering` | src/aguda/types/MultiTypeList.java:25-27 | a type list is always parenthesised, `()` when empty, `(t)` for one type |
| `Types.RepeatBrackets` | src/aguda/types/ArrayTypeChecker.java:27-29 | `"[]".repeat(d)` has length 2d and alternates `[` and `]` |
| `Scopes.Lookup` | src/aguda/context/Context.java:41-48 | a found type is the binding of the name in some scope |
| `Scopes.Push` | src/aguda/context/Context.java:16-18 | a new empty scope goes in front and the others are kept |
| `Scopes.Bind` | src/aguda/context/Context.java:27-32 | only the innermost scope changes, gaining the binding |
| `Scopes.Unbind` | src/aguda/context/Context.java:50-54 | the name is removed from the innermost scope only; an empty stack is unchanged |
| `Scopes.LookupIffBound` | src/aguda/context/Context.java:34-48 | `get` returns non-null exactly when `contains` is true |
| `Scopes.LookupInnermost` | src/aguda/context/Context.java:41-48 | the innermost scope binding the name decides the answer |
| `Scopes.BindThenLookup` | src/aguda/context/Context.java:27-32 | `get` after `add` returns the added type, whatever outer scopes bind |
| `Scopes.BindOther` | src/aguda/context/Context.java:27-32 | `add` leaves the lookup of every other name unchanged |
| `Scopes.PushLookup` | src/aguda/context/Context.java:16-18 | a fresh scope changes no lookup |
| `Scopes.PushThenPop` | src/aguda/context/Context.java:16-25 | `beginScope` then `endScope` restores the stack (a proof helper for the scope lemmas) |
| `Scopes.InnerBindingDiscarded` | src/aguda/context/Context.java:16-32 | a binding added in an inner scope is gone once that scope ends |
| `Scopes.UnbindUncovers` | src/aguda/context/Context.java:50-54 | removing a name from the innermost scope uncovers the next outer binding |
| `Scopes.Context.constructor` | src/aguda/context/Context.java:11-14 | a new context holds exactly one empty global scope |
| `Scopes.Context.BeginScope` | src/aguda/context/Context.java:16-18 | pushes one empty scope |
| `Scopes.Context.EndScope` | src/aguda/context/Context.java:20-25 | throws `No scope to end.` and changes nothing on an empty stack, else pops the innermost scope |
| `Scopes.Context.Add` | src/aguda/context/Context.java:27-32 | throws `No scope to insert into.` on an empty stack, else binds in the innermost scope |
| `Scopes.Context.Contains` | src/aguda/context/Context.java:34-39 | true exactly when some scope binds the name |
| `Scopes.Context.Get` | src/aguda/context/Context.java:41-48 | the innermost binding, or null |
| `Scopes.Context.Remove` | src/aguda/context/Context.java:50-54 | the stack becomes `Unbind` of the old stack |
| `Typing.Report` | src/aguda/checker/Checker.java:599-620 | every `error` call counts; it is stored and sets `hasErrors` only while the count is below `maxErrors`; scopes are untouched |
| `Typing.RegisterInternalError` | src/aguda/checker/Checker.java:40-43 | sets `hasErrors` and appends the message and a newline, storing no diagnostic |
| `Typing.EndScope` | src/aguda/context/Context.java:20-25 | pops exactly the innermost scope |
| `Typing.Add` | src/aguda/context/Context.java:27-32 | succeeds exactly on a non-empty stack, binding in the innermost scope; otherwise throws with the state unchanged |
| `Typing.BasicTypeOf` | src/aguda/checker/Checker.java:565-572 | exactly the names `Int`, `Bool`, `String`, `Unit` are basic types |
| `Typing.ConvertType` | src/aguda/checker/Checker.java:564-595 | exactly `Int`, `Bool`, `String`, `Unit` convert as basic types; an array, list or function annotation converts to the same kind of type, with the same dimensions or number of types; any other node throws; `CheckerFacts.TypeSyntaxRendering` and `ConvertEachAt` state the rest |
| `Typing.ConvertEach` | src/aguda/checker/Checker.java:581-586 | a converted type list has one type per element |
| `Typing.TypeOf` | src/aguda/checker/Checker.java:45-143 | dispatches each node kind; any outcome only adds reports within the cap, and a normal return leaves the scope depth and the outer scopes as found |
| `Typing.TypeOfIdentifier` | src/aguda/checker/Checker.java:94-105 | never throws and never changes scopes; the bound type with nothing reported, or Undeclared and one report for an unbound name or `_` used as a value (`CheckerFacts.IdentifierTyping`) |
| `Typing.CheckUnary` | src/aguda/checker/Checker.java:106-138 | reports stay within the cap and scopes are balanced; `!` is Bool and `-` Int, with the operand reports stated by `CheckerFacts.UnaryOperandReports` and the literal bound by `CheckerFacts.MinusLiteral` |
| `Typing.CheckVariableDeclaration` | src/aguda/checker/Checker.java:180-206 | reports stay within the cap and scopes are balanced; Unit, with the mismatch report stated by `CheckerFacts.VarDeclMismatch` |
| `Typing.CheckFunctionDeclaration` | src/aguda/checker/Checker.java:208-278 | reports stay within the cap and the parameter scope is closed again; Unit, with the return-type report stated by `CheckerFacts.FunctionDeclarationTyping` |
| `Typing.BindParameters` | src/aguda/checker/Checker.java:218-254 | reports stay within the cap and scopes are balanced; the count reports, the exception and the bindings are stated by `CheckerFacts.BindParametersTyping` |
| `Typing.BindParameter` | src/aguda/checker/Checker.java:244-252 | reports stay within the cap and scopes are balanced; what is skipped, reported or bound is stated by `CheckerFacts.BindParameterTyping` |
| `Typing.BindEach` | src/aguda/checker/Checker.java:228-238 | reports stay within the cap and scopes are balanced; when it throws and what it binds are stated by `CheckerFacts.BindEachThrows`, `BindEachKeeps` and `BindEachBinds` |
| `Typing.CheckExpressions` | src/aguda/checker/Checker.java:287-295 | reports stay within the cap and scopes are balanced; the type is Unit or the last item's (`CheckerFacts.SequenceTyping`) |
| `Typing.TypeOfFrom` | src/aguda/checker/Checker.java:287-295 | reports stay within the cap and scopes are balanced; the earlier items' types are dropped (`CheckerFacts.ItemsThenLast`) |
| `Typing.CheckLet` | src/aguda/checker/Checker.java:297-318 | reports stay within the cap and scopes are balanced; Unit, with the mismatch report at the last item and the binding in the enclosing scope stated by `CheckerFacts.LetMismatch` |
| `Typing.CheckIf` | src/aguda/checker/Checker.java:320-351 | reports stay within the cap and scopes are balanced |
| `Typing.CheckBranches` | src/aguda/checker/Checker.java:332-350 | reports stay within the cap and scopes are balanced |
| `Typing.CheckElse` | src/aguda/checker/Checker.java:338-344 | a missing else branch has type Unit and changes nothing |
| `Typing.CheckSet` | src/aguda/checker/Checker.java:353-362 | reports stay within the cap and scopes are balanced; Unit, with a report exactly on a type difference (`CheckerFacts.SetTyping`) |
| `Typing.CheckWhile` | src/aguda/checker/Checker.java:364-377 | reports stay within the cap and scopes are balanced; Unit, with the condition report stated by `CheckerFacts.WhileTyping` |
| `Typing.CheckCall` | src/aguda/checker/Checker.java:379-405 | reports stay within the cap and scopes are balanced; the types and reports of `print`, `length` and other calls are stated by `CheckerFacts.BuiltinCallTyping` and `UserCallTyping` |
| `Typing.CheckUserCall` | src/aguda/checker/Checker.java:406-421 | reports stay within the cap and scopes are balanced; the return type or Unit and the name reports are stated by `CheckerFacts.UserCallTyping` |
| `Typing.CheckCallArguments` | src/aguda/checker/Checker.java:423-457 | reports stay within the cap and scopes are balanced; the return type and the count and single-argument reports are stated by `CheckerFacts.CallArgumentReports` |
| `Typing.CheckArguments` | src/aguda/checker/Checker.java:435-443 | reports stay within the cap and scopes are balanced; the positional reports and the exception are stated by `CheckerFacts.ArgumentReports` |
| `Typing.CheckBinaryOp` | src/aguda/checker/Checker.java:460-495 | reports stay within the cap and scopes are balanced; the result type and the operand reports of every operator class are stated by `CheckerFacts.OperandReports` |
| `Typing.BinaryRule` | src/aguda/checker/Checker.java:464-494 | reports stay within the cap and scopes are unchanged; which operand types are reported, and with which message, is stated by `CheckerFacts.OperandReports` |
| `Typing.CheckArrayAccess` | src/aguda/checker/Checker.java:497-523 | reports stay within the cap and scopes are balanced |
| `Typing.AccessRule` | src/aguda/checker/Checker.java:507-522 | never throws; reports stay within the cap and scopes are unchanged |
| `Typing.CheckIndices` | src/aguda/checker/Checker.java:498-503 | reports stay within the cap and scopes are balanced; a non-Int index is reported (`CheckerFacts.IndexReported`) |
| `Typing.CheckArrayCreation` | src/aguda/checker/Checker.java:526-562 | reports stay within the cap and scopes are balanced; the array type is stated by `CheckerFacts.ArrayCreationTyping` |
| `Typing.CheckDimensions` | src/aguda/checker/Checker.java:537-559 | reports stay within the cap and scopes are balanced; the skipped `[]`, the exception and the size report are stated by `CheckerFacts.DimensionShape` and `DimensionReports` |
| `Typing.InitRule` | src/aguda/checker/Checker.java:548-558 | reports stay within the cap and scopes are unchanged; when it reports is stated by `CheckerFacts.InitRuleReports` |
| `Typing.Predeclare` | src/aguda/checker/Checker.java:146-172 | reports stay within the cap |
| `Typing.PredeclareName` | src/aguda/checker/Checker.java:147-158 | reports stay within the cap |
| `Typing.PredeclareFrom` | src/aguda/checker/Checker.java:48-50 | reports stay within the cap |
| `Typing.CheckDeclarationsFrom` | src/aguda/checker/Checker.java:53-55 | reports stay within the cap |
| `Typing.CheckProgram` | src/aguda/checker/Checker.java:46-61 | a passing program is Unit with no error flag; the cap is kept and errors never decrease; the verdict is stated by `CheckerFacts.ProgramVerdict` |
| `Typing.ErrorMessage` | src/aguda/checker/Checker.java:32-34 | the message ends with the summary text, and is just that text when nothing was stored |
| `Typing.RunChecker` | app/Main.java:148-167 | the cap is kept; a thrown exception leaves the error flag set and a pass leaves it clear; `CheckerFacts.RunCheckerVerdict` states what is stored |
| `CheckerImpl.Checker.constructor` | src/aguda/checker/Checker.java:26-30 | the new checker is in the initial state: one empty scope, no errors |
| `CheckerImpl.Checker.RegisterInternalError` | src/aguda/checker/Checker.java:40-43 | the new state is `Typing.RegisterInternalError` of the old |
| `CheckerImpl.Checker.Error` | src/aguda/checker/Checker.java:599-620 | the new state is `Typing.Report` of the old |
| `CheckerImpl.Checker.CheckProgram` | src/aguda/checker/Checker.java:46-61 | result and new state are those of `Typing.CheckProgram` |
| `CheckerImpl.Checker.Predeclare` | src/aguda/checker/Checker.java:146-172 | result and new state are those of `Typing.Predeclare` |
| `CheckerImpl.Checker.PredeclareName` | src/aguda/checker/Checker.java:147-158 | result and new state are those of `Typing.PredeclareName` |
| `CheckerImpl.Checker.TypeOf` | src/aguda/checker/Checker.java:62-143 | result and new state are those of `Typing.TypeOf` |
| `CheckerImpl.Checker.TypeOfIdentifier` | src/aguda/checker/Checker.java:94-105 | result and new state are those of `Typing.TypeOfIdentifier`, whose type and reports `CheckerFacts.IdentifierTyping` states |
| `CheckerImpl.Checker.CheckUnary` | src/aguda/checker/Checker.java:106-138 | result and new state are those of `Typing.CheckUnary`, whose reports `CheckerFacts.UnaryOperandReports` states |
| `CheckerImpl.Checker.CheckVariableDeclaration` | src/aguda/checker/Checker.java:180-206 | result and new state are those of `Typing.CheckVariableDeclaration`, whose type and reports `CheckerFacts.VarDeclMismatch` states |
| `CheckerImpl.Checker.CheckFunctionDeclaration` | src/aguda/checker/Checker.java:208-278 | result and new state are those of `Typing.CheckFunctionDeclaration`, whose type and reports `CheckerFacts.FunctionDeclarationTyping` states |
| `CheckerImpl.Checker.BindParameters` | src/aguda/checker/Checker.java:218-254 | result and new state are those of `Typing.BindParameters`, whose reports and bindings `CheckerFacts.BindParametersTyping` states; the parameter loop keeps the remaining work equal to `Typing.BindEach` |
| `CheckerImpl.Checker.BindParameter` | src/aguda/checker/Checker.java:244-252 | result and new state are those of `Typing.BindParameter`, whose report and binding `CheckerFacts.BindParameterTyping` states |
| `CheckerImpl.Checker.CheckExpressions` | src/aguda/checker/Checker.java:287-295 | result and new state are those of `Typing.CheckExpressions`, whose type and reports `CheckerFacts.SequenceTyping` states |
| `CheckerImpl.Checker.CheckLet` | src/aguda/checker/Checker.java:297-318 | result and new state are those of `Typing.CheckLet`, whose report and binding `CheckerFacts.LetMismatch` states |
| `CheckerImpl.Checker.CheckIf` | src/aguda/checker/Checker.java:320-351 | result and new state are those of `Typing.CheckIf` |
| `CheckerImpl.Checker.CheckBranches` | src/aguda/checker/Checker.java:332-350 | result and new state are those of `Typing.CheckBranches` |
| `CheckerImpl.Checker.CheckSet` | src/aguda/checker/Checker.java:353-362 | result and new state are those of `Typing.CheckSet`, whose type and reports `CheckerFacts.SetTyping` states |
| `CheckerImpl.Checker.CheckWhile` | src/aguda/checker/Checker.java:364-377 | result and new state are those of `Typing.CheckWhile`, whose type and reports `CheckerFacts.WhileTyping` states |
| `CheckerImpl.Checker.CheckCall` | src/aguda/checker/Checker.java:379-405 | result and new state are those of `Typing.CheckCall`, whose type and reports `CheckerFacts.BuiltinCallTyping` and `UserCallTyping` states |
| `CheckerImpl.Checker.CheckUserCall` | src/aguda/checker/Checker.java:406-421 | result and new state are those of `Typing.CheckUserCall`, whose type and reports `CheckerFacts.UserCallTyping` states |
| `CheckerImpl.Checker.CheckCallArguments` | src/aguda/checker/Checker.java:423-457 | result and new state are those of `Typing.CheckCallArguments`, whose type and reports `CheckerFacts.CallArgumentReports` states |
| `CheckerImpl.Checker.CheckArgument` | src/aguda/checker/Checker.java:436-442 | one round of the argument loop: the rest of the loop from the new state equals the rest from the old one, or the exception is the loop's; the round's report is stated by `CheckerFacts.ArgumentReports` |
| `CheckerImpl.Checker.CheckBinaryOp` | src/aguda/checker/Checker.java:460-495 | result and new state are those of `Typing.CheckBinaryOp`, whose reports `CheckerFacts.OperandReports` states |
| `CheckerImpl.Checker.ApplyBinaryRule` | src/aguda/checker/Checker.java:464-494 | result and new state are those of `Typing.BinaryRule`, whose reports `CheckerFacts.OperandReports` states |
| `CheckerImpl.Checker.CheckArrayAccess` | src/aguda/checker/Checker.java:497-523 | result and new state are those of `Typing.CheckArrayAccess` |
| `CheckerImpl.Checker.ApplyAccessRule` | src/aguda/checker/Checker.java:507-522 | result and new state are those of `Typing.AccessRule` |
| `CheckerImpl.Checker.CheckArrayCreation` | src/aguda/checker/Checker.java:526-562 | result and new state are those of `Typing.CheckArrayCreation`, whose type and reports `CheckerFacts.ArrayCreationTyping` states |
| `CheckerImpl.Checker.CheckDimension` | src/aguda/checker/Checker.java:537-559 | one round of the dimension loop: the rest of the loop from the new state equals the rest from the old one, or the exception is the loop's; the round's reports are stated by `CheckerFacts.DimensionShape` and `DimensionReports` |
| `CheckerImpl.Checker.CheckInitialiser` | src/aguda/checker/Checker.java:548-558 | the new state is `Typing.InitRule` of the old, whose reports `CheckerFacts.InitRuleReports` states |
| `CheckerImpl.SemanticCheck` | app/Main.java:148-153 | the checker ends in the state of the semantic test, with a thrown exception registered as an internal error |
| `CheckerFacts.StoredFromInitial` | src/aguda/checker/Checker.java:599-620 | from a fresh checker, exactly min(errors, maxErrors) diagnostics are stored (none when maxErrors is not positive), and `hasErrors` holds exactly when one was |
| `CheckerFacts.EvolvesTransitive` | src/aguda/checker/Checker.java:599-620 | the error-accounting invariant composes across calls |
| `CheckerFacts.Passes` | src/aguda/checker/Checker.java:47-55 | both passes over the declarations keep the error-accounting invariant |
| `CheckerFacts.ProgramVerdict` | src/aguda/checker/Checker.java:57-61 | a program throws with the summary line exactly when a diagnostic was stored; a pass's exception is passed on unchanged |
| `CheckerFacts.RunCheckerVerdict` | app/Main.java:148-167 | after the test at most maxErrors diagnostics are stored, and `hasErrors` (which gates code generation) holds exactly when something was written |
| `CheckerFacts.PredeclareReserved` | src/aguda/checker/Checker.java:148-150 | a top-level `print` or `length` is one error and binds nothing |
| `CheckerFacts.PredeclareDuplicate` | src/aguda/checker/Checker.java:152-154 | a repeated top-level name other than `_` is one error and keeps the first binding |
| `CheckerFacts.BindKeepsBound` | src/aguda/context/Context.java:27-39 | adding a binding keeps every bound name bound |
| `CheckerFacts.PredeclareStep` | src/aguda/checker/Checker.java:146-172 | one predeclaration binds its non-reserved name and keeps the binding of every earlier name other than `_` |
| `CheckerFacts.PredeclarePass` | src/aguda/checker/Checker.java:48-50 | after the first pass every declared non-reserved name is bound and earlier bindings (other than `_`) are unchanged |
| `CheckerFacts.BinaryResultType` | src/aguda/checker/Checker.java:460-495 | arithmetic yields Int and every other operator Bool |
| `CheckerFacts.BinaryOperatorRule` | src/aguda/checker/Checker.java:464-494 | an unknown operator (and only that) throws `Unknown binary operator`; `==`/`!=` report exactly when the operand types differ |
| `CheckerFacts.OperandReports` | src/aguda/checker/Checker.java:460-495 | after both operands: arithmetic and relational operators report exactly when an operand is not Int, `&&`/`||` exactly when one is not Bool, `==`/`!=` exactly when the types differ, each with its own message at the operator; nothing changes otherwise |
| `CheckerFacts.AccessTyping` | src/aguda/checker/Checker.java:497-523 | with d dimensions and k indices: non-array or k > d is one error and Undeclared; k = d gives the element type; k < d an array of d - k dimensions |
| `CheckerFacts.MinusLiteral` | src/aguda/checker/Checker.java:116-133 | `-n` on a literal is Int and reports out of bounds exactly when n > 2^31 |
| `CheckerFacts.UnaryTyping` | src/aguda/checker/Checker.java:106-138 | `!` is Bool, `-` is Int, any other operator is reported and Unit |
| `CheckerFacts.UnaryOperandReports` | src/aguda/checker/Checker.java:106-138 | `!` is Bool, with one report exactly when the operand is not Bool; `-` is Int, and a non-Int operand is reported first; a Bool `!` operand, and an Int `-` operand that is not a literal, keep the operand's state |
| `CheckerFacts.BranchTyping` | src/aguda/checker/Checker.java:332-350 | a missing else is Unit, the result is the then-type, and a mismatch is reported exactly when the branch types differ |
| `CheckerFacts.IfConditionReported` | src/aguda/checker/Checker.java:322-330 | a non-Bool condition is reported at the condition, while the cap allows |
| `CheckerFacts.LetBindsInEnclosingScope` | src/aguda/checker/Checker.java:297-318 | `let` binds its name with the declared type in the enclosing scope, returns Unit and keeps the outer scopes |
| `CheckerFacts.LetMismatch` | src/aguda/checker/Checker.java:297-318 | an unconvertible type throws; otherwise Unit, one report of the mismatch at the last item exactly when the body's type differs from the declared one, and the name bound to the declared type in the enclosing scope |
| `CheckerFacts.VarDeclBinds` | src/aguda/checker/Checker.java:180-206 | a variable declaration binds its name with the declared type in the current scope, returns Unit and keeps the outer scopes |
| `CheckerFacts.ReportThenEvolve` | src/aguda/checker/Checker.java:599-620 | a report counts one error and stays the first new diagnostic through any later calls, while the cap allows |
| `CheckerFacts.IdentifierTyping` | src/aguda/checker/Checker.java:94-105 | a bound name (not `_` as a value) has its bound type and changes nothing; otherwise Undeclared and one report, as undeclared or as a misplaced wildcard |
| `CheckerFacts.VarDeclMismatch` | src/aguda/checker/Checker.java:180-206 | an unconvertible type throws; otherwise Unit, and one mismatch report at the last item exactly when the declared type differs from the body's |
| `CheckerFacts.FunctionDeclarationTyping` | src/aguda/checker/Checker.java:208-278 | an unconvertible type throws; otherwise Unit, and one return-type report at the last item exactly when the declared return type differs from the body's |
| `CheckerFacts.BindParameterTyping` | src/aguda/checker/Checker.java:244-252 | a non-identifier is skipped; a reserved name is one report and no binding; any other name is bound to the type in the innermost scope |
| `CheckerFacts.BindEachStep` | src/aguda/checker/Checker.java:228-238 | one round of the parameter loop: the innermost scope gains the binding, a reserved name counts one report, and the loop goes on |
| `CheckerFacts.BindEachThrows` | src/aguda/checker/Checker.java:228-238 | the loop throws exactly when a bindable parameter has no listed type, with the list's length in the exception |
| `CheckerFacts.BindEachKeeps` | src/aguda/checker/Checker.java:228-238 | the loop changes only the innermost scope, counts one report per reserved name and keeps the bindings of names no later parameter has |
| `CheckerFacts.BindEachBinds` | src/aguda/checker/Checker.java:228-238 | each bindable parameter is bound, at its last occurrence, to its listed type |
| `CheckerFacts.BindParametersTyping` | src/aguda/checker/Checker.java:218-254 | a count mismatch or a non-single parameter is reported first; the loop throws as `BindEachThrows` says; no parameter with one type throws; each parameter is found with its type |
| `CheckerFacts.ItemsThenLast` | src/aguda/checker/Checker.java:287-295 | the items before the last are typed in order and dropped; the last item's type is the result |
| `CheckerFacts.SequenceTyping` | src/aguda/checker/Checker.java:287-295 | an empty sequence is Unit and changes nothing; otherwise the last item's type after the earlier items |
| `CheckerFacts.SetTyping` | src/aguda/checker/Checker.java:353-362 | Unit; one assignment report exactly when the two sides' types differ, nothing otherwise |
| `CheckerFacts.WhileTyping` | src/aguda/checker/Checker.java:364-377 | Unit; a non-Bool condition is reported at the condition first |
| `CheckerFacts.BuiltinCallTyping` | src/aguda/checker/Checker.java:379-404 | `print` is Unit and `length` Int; a non-list argument throws; an arity other than 1 is one report; `length` of a non-array is one report at the argument, and nothing else is |
| `CheckerFacts.UserCallTyping` | src/aguda/checker/Checker.java:406-457 | the bound function's return type; an unbound name is two reports, undeclared first; a non-function one report; a non-list argument throws |
| `CheckerFacts.CallArgumentReports` | src/aguda/checker/Checker.java:423-457 | the return type; a count mismatch reported first; with one parameter a non-single arity reported first, no argument throws, and a differing argument type is one report at it |
| `CheckerFacts.ArgumentReports` | src/aguda/checker/Checker.java:435-443 | argument i: past the list it throws; a differing type is reported at the argument with position i + 1; an equal type goes on |
| `CheckerFacts.IndexReported` | src/aguda/checker/Checker.java:498-503 | a non-Int index is reported at the index; an Int index goes on |
| `CheckerFacts.ArrayCreationTyping` | src/aguda/checker/Checker.java:526-562 | an unknown base throws; otherwise an array of the base with one dimension per bracket pair, once the dimensions check |
| `CheckerFacts.DimensionShape` | src/aguda/checker/Checker.java:537-559 | a bare `[]` is skipped; a size without initialiser throws a null-pointer exception |
| `CheckerFacts.DimensionReports` | src/aguda/checker/Checker.java:537-547 | a size that is not Int is reported at the size |
| `CheckerFacts.InitRuleReports` | src/aguda/checker/Checker.java:548-558 | one report exactly when the initialiser (or its element type, for an array) differs from the base type |
| `CheckerFacts.ConvertEachAt` | src/aguda/checker/Checker.java:581-586 | each element of a converted list is the conversion of that element on its own |
| `CheckerFacts.TypeSyntaxRendering` | src/aguda/checker/Checker.java:564-596 | an accepted type annotation without one-element lists denotes a type whose `toString` is the annotation as printed |
| `Printer.PrintEach` | src/aguda/ast/Expressions.java:17-32 | one rendering per item |
| `Printer.PrintEachAt` | src/aguda/ast/Expressions.java:17-32 | rendering k is item k printed at the same indent |
| `Printer.Bracketed` | src/aguda/ast/ArrayAccess.java:17-27 | one bracket pair around each index rendering, in order |
| `Printer.PrintDimsAt` | src/aguda/ast/ArrayCreation.java:27-35 | rendering k is dimension k: `[size \| init]` when both are present, otherwise `[]` |
| `Printer.PrintExpressions` | src/aguda/ast/Expressions.java:17-32 | the loop builds exactly `Print` of the node |
| `Printer.PrintTypeList` | src/aguda/ast/TypeList.java:15-26 | the loop builds exactly `Print` of the node |
| `Printer.PrintArrayType` | src/aguda/ast/ArrayType.java:15-19 | the loop builds exactly `Print` of the node |
| `Printer.PrintIds` | src/aguda/ast/IdList.java:17-24 | the loop builds exactly the `IdList` rendering |
| `Printer.PrintArrayCreation` | src/aguda/ast/ArrayCreation.java:27-35 | the loop builds exactly `Print` of the node |
| `Printer.PrintArrayCreationShape` | src/aguda/ast/ArrayCreation.java:27-35 | proof helper: indent, `new `, the base type, then the dimension renderings in order |
| `Printer.PrintDimension` | src/aguda/ast/ArrayCreation.java:29-33 | one dimension's rendering |
| `Printer.PrintArrayAccess` | src/aguda/ast/ArrayAccess.java:17-27 | the loop builds exactly `Print` of the node |
| `Printer.PrintArrayAccessShape` | src/aguda/ast/ArrayAccess.java:17-27 | proof helper: indent, the array, then one bracketed index per index |
| `PrinterFacts.ExpressionsOrder` | src/aguda/ast/Expressions.java:17-32 | empty prints nothing, one item no separator, otherwise first item, separator (space after `,`, newline otherwise), rest |
| `PrinterFacts.ExpressionsLast` | src/aguda/ast/Expressions.java:17-32 | the separator goes between items and never after the last |
| `PrinterFacts.PrintEachSnoc` | src/aguda/ast/Expressions.java:17-32 | one more item appends its rendering last |
| `PrinterFacts.TypeListForms` | src/aguda/ast/TypeList.java:15-26 | one type prints as itself; otherwise indent, `(`, the types joined by `, `, `)`; empty gives `()` |
| `PrinterFacts.ArrayTypeForm` | src/aguda/ast/ArrayType.java:15-19 | the base, then exactly one `[]` per dimension |
| `PrinterFacts.IfForm` | src/aguda/ast/IfExpression.java:17-20 | starts with indent and `if `, ends with `else Unit` without an else branch and `else` plus the branch otherwise |
| `PrinterFacts.IdListForm` | src/aguda/ast/IdList.java:17-24 | the name, then the parameters at indent 0 between parentheses, separated by `, ` |
| `PrinterFacts.UnaryForm` | src/aguda/ast/UnaryOp.java:15-16 | indent, `0 - ` for minus or the operator itself, then the operand |
| `PrinterFacts.ArrayAccessForm` | src/aguda/ast/ArrayAccess.java:17-27 | one bracketed index per index in order; none gives just indent and array |
| `Printer.Print` | src/aguda/ast/LetExpression.java:16-18 | the `toString` of every node kind; what each form is, is stated by the `PrinterFacts` lemmas above |
| `Lowering.PushCtx` | src/aguda/codegen/CodeGenerator.java:40-42 | pushes an empty frame and changes nothing else |
| `Lowering.PopCtx` | src/aguda/codegen/CodeGenerator.java:44-46 | pops the top frame and changes nothing else |
| `Lowering.AddToCtx` | src/aguda/codegen/CodeGenerator.java:48-50 | binds in the top frame only |
| `Lowering.LookupCtx` | src/aguda/codegen/CodeGenerator.java:52-59 | a found binding is in some frame |
| `Lowering.NextRegister` | src/aguda/codegen/CodeGenerator.java:483-485 | no code is written, the frame depth is kept and no counter goes back; no later call gives the same register (`LoweringFacts.RegistersNeverRepeat`) |
| `Lowering.NextLabel` | src/aguda/codegen/CodeGenerator.java:493-495 | no code is written, the frame depth is kept and no counter goes back; no later call gives the same label (`LoweringFacts.LabelsNeverRepeat`) |
| `Lowering.AddError` | src/aguda/codegen/CodeGenerator.java:443-475 | only the error log, the cap and the reported locations change |
| `Lowering.BasicTypeNamed` | src/aguda/codegen/CodeGenerator.java:238-282 | exactly `Int`, `Bool`, `Unit` name basic types |
| `Lowering.ConvertAstToType` | src/aguda/codegen/CodeGenerator.java:238-282 | at most an error report; frames and counters unchanged |
| `Lowering.ConvertTypeToLlvm` | src/aguda/codegen/CodeGenerator.java:290-301 | at most an error report; frames and counters unchanged |
| `Lowering.DefinePowFunction` | src/aguda/codegen/CodeGenerator.java:385-421 | only the helper text and its flag change |
| `Lowering.DefinePrintfFormat` | src/aguda/codegen/CodeGenerator.java:430-436 | only the helper text changes |
| `Lowering.DeclarePrintf` | src/aguda/codegen/GenerateExpr.java:390-392 | only the helper text changes |
| `Lowering.GenExpr` | src/aguda/codegen/GenerateExpr.java:40-543 | lowering never writes `llvmCode`, keeps the frame depth and never moves a counter back |
| `Lowering.GenNegations` | src/aguda/codegen/GenerateExpr.java:101-122 | same lowering invariant |
| `Lowering.GenArguments` | src/aguda/codegen/GenerateExpr.java:400-412 | one lowered argument per argument, in order at the entry label (`LoweringFacts.ArgumentsInOrder`) |
| `Lowering.PassEach` | src/aguda/codegen/GenerateExpr.java:414-418 | one `type value` text per argument, and the arguments' code in order (`LoweringFacts.PassEachParts`) |
| `Lowering.GenIf` | src/aguda/codegen/GenerateExpr.java:441-510 | the exit label is the fresh `join` label, two labels past the entry counter |
| `Lowering.GenCond` | src/aguda/codegen/GenerateCondExpr.java:32-161 | same lowering invariant |
| `Lowering.GenIdentifier` | src/aguda/codegen/GenerateExpr.java:56-83 | never writes `llvmCode`, keeps the frame depth and never moves a counter back; the load or the register as is (`LoweringFacts.IdentifierLoad`) |
| `Lowering.Negation` | src/aguda/codegen/GenerateExpr.java:91-98 | never writes `llvmCode`, keeps the frame depth and never moves a counter back; the `sub` is stated by `LoweringFacts.Negated` |
| `Lowering.Inversion` | src/aguda/codegen/GenerateExpr.java:112-118 | never writes `llvmCode`, keeps the frame depth and never moves a counter back |
| `Lowering.GenLogical` | src/aguda/codegen/GenerateExpr.java:130-149 | never writes `llvmCode`, keeps the frame depth and never moves a counter back |
| `Lowering.LogicalJoin` | src/aguda/codegen/GenerateExpr.java:138-148 | never writes `llvmCode`, keeps the frame depth and never moves a counter back |
| `Lowering.GenBinary` | src/aguda/codegen/GenerateExpr.java:151-203 | never writes `llvmCode`, keeps the frame depth and never moves a counter back |
| `Lowering.BinaryInstruction` | src/aguda/codegen/GenerateExpr.java:154-203 | never writes `llvmCode`, keeps the frame depth and never moves a counter back |
| `Lowering.GenSequence` | src/aguda/codegen/GenerateExpr.java:207-230 | never writes `llvmCode`, keeps the frame depth and never moves a counter back |
| `Lowering.GenLet` | src/aguda/codegen/GenerateExpr.java:233-281 | never writes `llvmCode`, keeps the frame depth and never moves a counter back |
| `Lowering.LetBinding` | src/aguda/codegen/GenerateExpr.java:242-280 | never writes `llvmCode`, keeps the frame depth and never moves a counter back |
| `Lowering.GenSet` | src/aguda/codegen/GenerateExpr.java:284-308 | never writes `llvmCode`, keeps the frame depth and never moves a counter back; the `store` and the Unit type are stated by `LoweringFacts.SetShape` |
| `Lowering.Assignment` | src/aguda/codegen/GenerateExpr.java:292-306 | never writes `llvmCode`, keeps the frame depth and never moves a counter back; the `store` is stated by `LoweringFacts.SetShape` |
| `Lowering.GenPrint` | src/aguda/codegen/GenerateExpr.java:330-396 | never writes `llvmCode`, keeps the frame depth and never moves a counter back; the printing code is stated by `LoweringFacts.PrintShape` |
| `Lowering.PrintEach` | src/aguda/codegen/GenerateExpr.java:342-388 | never writes `llvmCode`, keeps the frame depth and never moves a counter back; arguments in order (`LoweringFacts.PrintEachInOrder`) |
| `Lowering.PrintArgument` | src/aguda/codegen/GenerateExpr.java:342-388 | never writes `llvmCode`, keeps the frame depth and never moves a counter back; the `printf` per type is stated by `LoweringFacts.PrintArgumentShape` |
| `Lowering.GenUserCall` | src/aguda/codegen/GenerateExpr.java:398-437 | never writes `llvmCode`, keeps the frame depth and never moves a counter back; the `call` and its type are stated by `LoweringFacts.UserCallShape` |
| `Lowering.CallInstruction` | src/aguda/codegen/GenerateExpr.java:421-437 | never writes `llvmCode`, keeps the frame depth and never moves a counter back; the `call` text is stated by `LoweringFacts.UserCallShape` |
| `Lowering.IfJoin` | src/aguda/codegen/GenerateExpr.java:469-508 | never writes `llvmCode`, keeps the frame depth and never moves a counter back |
| `Lowering.GenWhile` | src/aguda/codegen/GenerateExpr.java:513-540 | never writes `llvmCode`, keeps the frame depth and never moves a counter back |
| `Lowering.CondLogical` | src/aguda/codegen/GenerateCondExpr.java:57-89 | never writes `llvmCode`, keeps the frame depth and never moves a counter back |
| `Lowering.CondCompare` | src/aguda/codegen/GenerateCondExpr.java:90-114 | never writes `llvmCode`, keeps the frame depth and never moves a counter back |
| `Lowering.CompareBranch` | src/aguda/codegen/GenerateCondExpr.java:94-114 | never writes `llvmCode`, keeps the frame depth and never moves a counter back |
| `Lowering.CondSequence` | src/aguda/codegen/GenerateCondExpr.java:121-140 | never writes `llvmCode`, keeps the frame depth and never moves a counter back |
| `LoweringFacts.CondBoolLiteral` | src/aguda/codegen/GenerateCondExpr.java:34-39 | a Bool literal is one jump to `tt` or `ff`, which is also the exit |
| `LoweringFacts.CondNotSwaps` | src/aguda/codegen/GenerateCondExpr.java:45-47 | `!e` is `e` with the targets swapped |
| `LoweringFacts.CondDoubleNegation` | src/aguda/codegen/GenerateCondExpr.java:45-47 | `!!e` lowers exactly as `e` |
| `LoweringFacts.CondAndShape` | src/aguda/codegen/GenerateCondExpr.java:57-72 | one fresh `and` label; left jumps there on true and to `ff` on false; the right is entered there; exit is the right's |
| `LoweringFacts.CondOrShape` | src/aguda/codegen/GenerateCondExpr.java:74-89 | the same with left jumping to `tt` on true and to the fresh `or` label on false |
| `LoweringFacts.CondComparison` | src/aguda/codegen/GenerateCondExpr.java:90-114 | right operand at the left's exit, then one `icmp` with the operator's predicate and one `br i1` to `tt`/`ff` |
| `LoweringFacts.PredicateAgreesWithOperator` | src/aguda/codegen/CodeGenerator.java:309-326 | each comparison's predicate is what `convertOperatorToLLVM` gives after `icmp ` |
| `Lowering.ConvertOperator` | src/aguda/codegen/CodeGenerator.java:309-326 | a comparison gives `icmp ` and its predicate; every other operator a non-empty instruction that does not start with `i` |
| `Lowering.Predicate` | src/aguda/codegen/GenerateCondExpr.java:96-103 | the predicate is one of `eq`, `ne`, `slt`, `sle`, `sgt`, `sge`; `eq` exactly for `==` and `ne` exactly for `!=` |
| `LoweringFacts.CondUnsupported` | src/aguda/codegen/GenerateCondExpr.java:48-50 | an unsupported operator gives empty code at the entry label; `addErrorMessage` is called twice, and for a positioned node the second call stores nothing |
| `LoweringFacts.CondFallback` | src/aguda/codegen/GenerateCondExpr.java:148-157 | any other expression is its value followed by `br i1` on it |
| `LoweringFacts.CondSequenceAppends` | src/aguda/codegen/GenerateCondExpr.java:121-140 | the sequence loop keeps what it built and appends the rest |
| `LoweringFacts.CondSequenceStep` | src/aguda/codegen/GenerateCondExpr.java:121-140 | element i is entered at element i-1's exit and followed by `;` unless last |
| `LoweringFacts.CondEmptySequence` | src/aguda/codegen/GenerateCondExpr.java:121-140 | empty sequence: no code, exit is the entry |
| `LoweringFacts.CondSequenceLast` | src/aguda/codegen/GenerateCondExpr.java:121-140 | no separator after the last element |
| `LoweringFacts.Literals` | src/aguda/codegen/GenerateExpr.java:42-51 | literals emit no code, keep the state and exit at the entry |
| `LoweringFacts.NegationSkip` | src/aguda/codegen/GenerateExpr.java:101-110 | the counting loop skips every `!` before lowering |
| `LoweringFacts.NotChainParity` | src/aguda/codegen/GenerateExpr.java:101-122 | an even chain of `!` gives the innermost operand's lowering, an odd one adds exactly one `xor` with 1 |
| `LoweringFacts.ChainResult` | src/aguda/codegen/GenerateExpr.java:105-121 | the counting loop from the first operand gives the parity result |
| `LoweringFacts.NotDispatch` | src/aguda/codegen/GenerateExpr.java:86-110 | the operand is lowered, then the loop runs with one `!` counted |
| `LoweringFacts.Inverted` | src/aguda/codegen/GenerateExpr.java:112-118 | the odd case: operand code, then `xor` into a fresh register |
| `LoweringFacts.ValueLogical` | src/aguda/codegen/GenerateExpr.java:130-149 | fresh `true`, `false`, `join` labels; both blocks jump to `join`; a phi there; Bool value |
| `LoweringFacts.LogicalJoinShape` | src/aguda/codegen/GenerateExpr.java:138-146 | the join code of a value-level logical operator |
| `LoweringFacts.BlockTargets` | src/aguda/codegen/GenerateExpr.java:139-142 | each block only jumps to `join` |
| `LoweringFacts.ValueBinary` | src/aguda/codegen/GenerateExpr.java:151-203 | both operands at the entry label, which is the exit; `^` calls `@powi` and defines it; Int for arithmetic, Bool for comparisons |
| `LoweringFacts.BinaryResultTypes` | src/aguda/codegen/GenerateExpr.java:183-201 | arithmetic Int, comparisons and logical Bool, otherwise null |
| `LoweringFacts.BinaryInstructionShape` | src/aguda/codegen/GenerateExpr.java:154-181 | the one instruction a binary operator emits |
| `LoweringFacts.EmptySequence` | src/aguda/codegen/GenerateExpr.java:207-230 | an empty sequence: no code, null value and type |
| `LoweringFacts.SequenceValueIsLast` | src/aguda/codegen/GenerateExpr.java:207-230 | the value and type are the last element's |
| `LoweringFacts.SequenceLast` | src/aguda/codegen/GenerateExpr.java:207-230 | the last element gives value, type and exit, with no separator after it |
| `LoweringFacts.SequenceThreadsLabel` | src/aguda/codegen/GenerateExpr.java:207-230 | each element is lowered at the previous one's exit |
| `LoweringFacts.ValueLet` | src/aguda/codegen/GenerateExpr.java:233-281 | the binding goes into the enclosing frame after the body's frame is popped |
| `LoweringFacts.LetBindingShape` | src/aguda/codegen/GenerateExpr.java:242-280 | `alloca`, `store` of the value, `load`, and the binding in the top frame |
| `LoweringFacts.StoredValueCases` | src/aguda/codegen/GenerateExpr.java:251-268 | a Unit-declared Int/Bool value or a null value stores `1` |
| `LoweringFacts.BranchJumpsToJoin` | src/aguda/codegen/GenerateExpr.java:459-466 | each branch ends in a jump to `join` |
| `LoweringFacts.PhiValues` | src/aguda/codegen/GenerateExpr.java:471-491 | a null or empty branch value becomes `1` in the phi |
| `LoweringFacts.IfJoinShape` | src/aguda/codegen/GenerateExpr.java:469-508 | the phi comes last with each branch's exit label; then-type; exit `join` |
| `LoweringFacts.ValueWhile` | src/aguda/codegen/GenerateExpr.java:513-540 | jump to the condition label, the condition, the body, the jump back; no value, Unit, exit at the end label |
| `LoweringFacts.IdentifierLoad` | src/aguda/codegen/GenerateExpr.java:56-83 | unbound: nothing and one report; Unit: the register as is; a slot or a global: a `load` into the next register; otherwise the register as is; always the binding's type at the entry label |
| `LoweringFacts.Negated` | src/aguda/codegen/GenerateExpr.java:91-98 | the operand's code, then `sub ty 0, v` into a fresh register, with the operand's type and exit |
| `LoweringFacts.NegationShape` | src/aguda/codegen/GenerateExpr.java:86-98 | `-e` is the operand's code and one `sub` into the register after the operand's; the operand's type and exit |
| `LoweringFacts.SetShape` | src/aguda/codegen/GenerateExpr.java:284-308 | the value in a pushed frame, then one `store` through the variable's slot in the popped frames; no value, Unit, frames restored |
| `LoweringFacts.ValueParen` | src/aguda/codegen/GenerateExpr.java:311-318 | the inner expression's lowering in a pushed frame, popped after |
| `LoweringFacts.CondParen` | src/aguda/codegen/GenerateCondExpr.java:143-146 | a parenthesised condition lowers as its inner condition, with no frame pushed |
| `LoweringFacts.ArgumentsAccumulate` | src/aguda/codegen/GenerateExpr.java:400-412 | arguments lowered before are kept in front of the rest |
| `LoweringFacts.ArgumentsInOrder` | src/aguda/codegen/GenerateExpr.java:400-412 | argument i is lowered at the entry label, then the rest from the state it leaves |
| `LoweringFacts.PassEachCode` | src/aguda/codegen/GenerateExpr.java:414-418 | the fold writes the arguments' code in order and keeps frames and counters |
| `LoweringFacts.PassEachTexts` | src/aguda/codegen/GenerateExpr.java:414-418 | the fold keeps earlier texts and adds one `type value` text per argument, in order |
| `LoweringFacts.PassEachParts` | src/aguda/codegen/GenerateExpr.java:414-418 | the arguments' code in order and one `type value` text per argument; frames and counters kept |
| `LoweringFacts.PassedArguments` | src/aguda/codegen/GenerateExpr.java:414-418 | the whole fold gives all arguments' code and all their texts |
| `LoweringFacts.UserCallShape` | src/aguda/codegen/GenerateExpr.java:398-437 | the arguments' code, then one `call` into the next register, typed by the name's innermost binding or Unit, passing each argument's text in order |
| `LoweringFacts.PrintArgumentShape` | src/aguda/codegen/GenerateExpr.java:342-388 | Int: a `getelementptr` of `@.fmt.int` and `printf`; Bool: `icmp`, `select` between the texts and `printf`; Unit: `@.str.unit` and `printf`, each with its constant defined; String: reported, nothing printed |
| `LoweringFacts.PrintEachAccumulates` | src/aguda/codegen/GenerateExpr.java:342-388 | code printed before is kept in front of the rest |
| `LoweringFacts.PrintEachInOrder` | src/aguda/codegen/GenerateExpr.java:342-388 | argument i's printing code comes first, then the rest |
| `LoweringFacts.PrintShape` | src/aguda/codegen/GenerateExpr.java:330-396 | the arguments lowered at the entry label, then their printing code in order; empty value, Unit, exit at the entry, `@printf` declared |
| `LoweringFacts.ExprDispatch` | src/aguda/codegen/GenerateExpr.java:40-543 | the operators go to their own lowerings; an unsupported unary operator gives nothing |
| `LoweringFacts.CompoundDispatch` | src/aguda/codegen/GenerateExpr.java:40-543 | sequences, `let`, `set`, `if`, `while` go to their own lowerings |
| `LoweringFacts.LeafDispatch` | src/aguda/codegen/GenerateExpr.java:40-543 | names, `print` and other calls go to their own lowerings; a string literal or array type is reported; declarations, arrays and types give nothing |
| `LoweringFacts.LookupInnermost` | src/aguda/codegen/CodeGenerator.java:52-59 | the innermost frame with the name wins |
| `LoweringFacts.LookupAbsent` | src/aguda/codegen/CodeGenerator.java:52-59 | null exactly when no frame has the name |
| `LoweringFacts.AddThenLookup` | src/aguda/codegen/CodeGenerator.java:48-59 | an added name is found at once, others unaffected |
| `LoweringFacts.PushThenPop` | src/aguda/codegen/CodeGenerator.java:40-46 | a pushed frame hides nothing (a helper for the frame lemmas) |
| `LoweringFacts.RegistersDistinct` | src/aguda/codegen/CodeGenerator.java:483-485 | different counter values give different registers |
| `LoweringFacts.LabelsDistinct` | src/aguda/codegen/CodeGenerator.java:493-495 | different stems or counters give different labels |
| `LoweringFacts.SuccessiveNamesDistinct` | src/aguda/codegen/CodeGenerator.java:483-495 | two successive calls give different names |
| `LoweringFacts.RegistersNeverRepeat` | src/aguda/codegen/CodeGenerator.java:483-485 | a register handed out is never handed out again by any later call |
| `LoweringFacts.LabelsNeverRepeat` | src/aguda/codegen/CodeGenerator.java:493-495 | a label handed out is never handed out again, whatever the stems |
| `LoweringFacts.CountersPositive` | src/aguda/codegen/CodeGenerator.java:62-78 | counters start at 1 and never go back |
| `LoweringFacts.PowDefinedOnce` | src/aguda/codegen/CodeGenerator.java:385-421 | a second `definePowFunction` changes nothing |
| `LoweringFacts.FormatDefinedOnce` | src/aguda/codegen/CodeGenerator.java:430-436 | a repeated format constant changes nothing |
| `LoweringFacts.PrintfDeclaredOnce` | src/aguda/codegen/GenerateExpr.java:390-392 | `@printf` is declared at most once |
| `LoweringFacts.AddErrorStores` | src/aguda/codegen/CodeGenerator.java:443-475 | stores only while the cap is positive and the location is new; then decrements the cap and records the location |
| `LoweringFacts.OneReportPerLocation` | src/aguda/codegen/CodeGenerator.java:443-475 | a second report at the same location adds nothing |
| `LoweringFacts.ErrorsAtMostInitial` | src/aguda/codegen/CodeGenerator.java:443-475 | at most the initial maxErrors reports are stored |
| `LoweringFacts.AddErrorKeepsDistinct` | src/aguda/codegen/CodeGenerator.java:443-475 | stored locations stay distinct |
| `LoweringFacts.ErrorMessageLines` | src/aguda/codegen/CodeGenerator.java:502-504 | one line per stored report, in order |
| `Lowering.ErrorMessage` | src/aguda/codegen/CodeGenerator.java:502-504 | the message is empty exactly when no report is stored; its lines are stated by `LoweringFacts.ErrorMessageLines` |
| `LoweringFacts.LlvmTypes` | src/aguda/codegen/CodeGenerator.java:290-301 | Int is `i32`, Bool and Unit `i1`, others null and reported |
| `LoweringFacts.AstTypes` | src/aguda/codegen/CodeGenerator.java:238-282 | a basic type by name, a function type by its basic return type, otherwise null and reported |
| `Ir.Render` | src/aguda/codegen/GenerateExpr.java:40-543 | empty code renders as empty text |
| `Ir.RenderAppend` | src/aguda/codegen/GenerateExpr.java:207-230 | rendering distributes over concatenation |
| `Ir.NoJumps` | src/aguda/codegen/GenerateExpr.java:40-543 | code without `br` has no targets |
| `Ir.TargetsAppend` | src/aguda/codegen/GenerateExpr.java:40-543 | targets and label heads distribute over concatenation |
| `Emission.Declare` | src/aguda/codegen/CodeGenerator.java:209-230 | only the global frame, the counters and the error log change |
| `Emission.DeclareFrom` | src/aguda/codegen/CodeGenerator.java:209-230 | the same for all declarations |
| `Emission.AddArgumentsFrom` | src/aguda/codegen/CodeGenerator.java:336-382 | the frame depth is kept and counters never go back; the header text, the counter, the bindings and the kept names are stated by `EmissionFacts.ArgumentsText`, `ArgumentsCount`, `ArgumentsBind` and `ArgumentsKeep`, the exception by `EmissionFacts.ArgumentsOutOfBounds` |
| `Emission.AddArguments` | src/aguda/codegen/CodeGenerator.java:336-382 | the frame depth is kept and counters never go back; with types, what is bound and written is stated by `EmissionFacts.ArgumentsBound`, the exception by `EmissionFacts.ParameterTypesMissing` |
| `Emission.BindArgument` | src/aguda/codegen/CodeGenerator.java:349-376 | one parameter bound: the frame depth is kept and counters never go back; the binding and the text are stated by `EmissionFacts.BindArgumentShape` |
| `Emission.ParameterSlotsFrom` | src/aguda/codegen/CodeGenerator.java:135-149 | frames are unchanged; the `alloca` and `store` per parameter are stated by `EmissionFacts.ParameterSlotLines` |
| `Emission.InstructionLinesSnoc` | src/aguda/codegen/CodeGenerator.java:155-160 | one more part appends its line |
| `Emission.ParameterTypes` | src/aguda/codegen/CodeGenerator.java:117-127 | types exist exactly for a function type whose parameters are a list or one basic type, and a basic type gives one |
| `Emission.BodyLines` | src/aguda/codegen/CodeGenerator.java:151-161 | each body line starts with a tab and ends with a newline; no code gives no lines |
| `Emission.Epilogue` | src/aguda/codegen/CodeGenerator.java:163-169 | the epilogue starts with `ret` and closes the definition |
| `Emission.GlobalValue` | src/aguda/codegen/CodeGenerator.java:183-195 | a value is kept or folded, never lost; it differs from the lowered one only for a one-unary initialiser |
| `Emission.Output` | src/aguda/codegen/CodeGenerator.java:199 | the output starts with the helper definitions and ends with the module code |
| `Emission.EmitFunction` | src/aguda/codegen/CodeGenerator.java:95-172 | the frame depth is restored unless an exception stops it; the whole definition text is stated by `EmissionFacts.FunctionText`, an unbound name by `EmissionFacts.MissingFunction` |
| `Emission.EmitGlobal` | src/aguda/codegen/CodeGenerator.java:174-197 | the frame depth is kept |
| `Emission.EmitDeclaration` | src/aguda/codegen/CodeGenerator.java:96-197 | the frame depth is restored unless an exception stops it |
| `Emission.EmitFrom` | src/aguda/codegen/CodeGenerator.java:96-197 | the frame depth is restored unless an exception stops it |
| `Emission.Generate` | src/aguda/codegen/CodeGenerator.java:85-201 | a normal end leaves exactly the global frame |
| `EmissionFacts.DeclareBinds` | src/aguda/codegen/CodeGenerator.java:209-230 | a function is bound to `@` and its sanitised name, as a function; a variable to `@` and its name with a numbered `%ptr_` slot; anything else changes nothing |
| `EmissionFacts.DeclareKeeps` | src/aguda/codegen/CodeGenerator.java:209-230 | earlier global names stay bound |
| `EmissionFacts.DeclareFromBindsAll` | src/aguda/codegen/CodeGenerator.java:209-230 | after the pass every later declaration's name is global, and no code is written |
| `EmissionFacts.LookupNotInTop` | src/aguda/codegen/CodeGenerator.java:52-59 | in a one-frame stack, a name not in the frame is not found |
| `EmissionFacts.DeclaredBeforeEmitted` | src/aguda/codegen/CodeGenerator.java:85-96 | every name is bound before the first declaration is emitted, and nothing has been written |
| `EmissionFacts.ArgumentsOutOfBounds` | src/aguda/codegen/CodeGenerator.java:336-382 | `IndexOutOfBoundsException` for the first parameter without a type, and none when each has one |
| `EmissionFacts.ParameterTypesMissing` | src/aguda/codegen/CodeGenerator.java:336-382 | an exception exactly when there are fewer types than parameters |
| `EmissionFacts.WildcardNames` | src/aguda/codegen/CodeGenerator.java:356-360 | the k-th wildcard is `__wild` + k, so wildcards get distinct names |
| `EmissionFacts.BindArgumentShape` | src/aguda/codegen/CodeGenerator.java:349-376 | one parameter: its name bound in the innermost frame to its type, `%` name and a numbered `%ptr_` slot of the function; `type %name` and a separator unless last appended to the header |
| `EmissionFacts.ArgumentsText` | src/aguda/codegen/CodeGenerator.java:367-374 | the loop appends to the code exactly the header: one `type %name` per identifier parameter, separated by `, ` |
| `EmissionFacts.ArgumentsCount` | src/aguda/codegen/CodeGenerator.java:345-378 | no exception when each parameter has a type; outer frames and the label counter kept; the register counter moves by the number of identifier parameters |
| `EmissionFacts.ArgumentsKeep` | src/aguda/codegen/CodeGenerator.java:345-378 | a name no parameter is bound under keeps its binding or absence |
| `EmissionFacts.ArgumentsBind` | src/aguda/codegen/CodeGenerator.java:345-378 | a parameter not bound again later is bound to its type, its `%` name and the slot numbered by the identifiers before it |
| `EmissionFacts.ArgumentsBindAll` | src/aguda/codegen/CodeGenerator.java:345-378 | the same binding for the whole parameter list, wildcards numbered from 0 |
| `EmissionFacts.ArgumentsKeepAll` | src/aguda/codegen/CodeGenerator.java:345-378 | the same keeping for the whole parameter list |
| `EmissionFacts.ArgumentsBound` | src/aguda/codegen/CodeGenerator.java:345-378 | the whole loop: no exception, the header text, the counters, each parameter's binding and every other name kept |
| `EmissionFacts.FunctionText` | src/aguda/codegen/CodeGenerator.java:110-170 | the definition appended: `define`, the return type and name, the header, `entry:`, the parameter slots, the body lines and the epilogue; the parameter frame is popped |
| `EmissionFacts.ParameterSlotLines` | src/aguda/codegen/CodeGenerator.java:135-149 | one `alloca` and one `store` per identifier parameter, in order, appended to the function code; counters unchanged |
| `EmissionFacts.MissingFunction` | src/aguda/codegen/CodeGenerator.java:104-107 | a function missing from the context is a null dereference and writes nothing |
| `EmissionFacts.Returns` | src/aguda/codegen/CodeGenerator.java:163-168 | `main` returns `i1 1`; others their value, or `1` when it is null or empty |
| `EmissionFacts.GlobalFolding` | src/aguda/codegen/CodeGenerator.java:183-195 | a one-unary-on-literal initialiser is folded (`-n`, negated Bool); otherwise the lowered value |
| `EmissionFacts.OutputOrder` | src/aguda/codegen/CodeGenerator.java:199 | the output is the helpers, then the module code |
| `Generator.BodyText` | src/aguda/codegen/CodeGenerator.java:151-161 | the body text is `Emission.BodyLines` of the code |
| `Generator.InstructionText` | src/aguda/codegen/CodeGenerator.java:153-161 | the loop over `;` parts builds `Emission.InstructionLines` |
| `Generator.FoldedValue` | src/aguda/codegen/CodeGenerator.java:183-195 | the global's value is `Emission.GlobalValue` |
| `Generator.CodeGenerator.constructor` | src/aguda/codegen/CodeGenerator.java:62-78 | the fields are the initial state |
| `Generator.CodeGenerator.PushCtx` | src/aguda/codegen/CodeGenerator.java:40-42 | the new state is `Lowering.PushCtx` of the old |
| `Generator.CodeGenerator.PopCtx` | src/aguda/codegen/CodeGenerator.java:44-46 | the new state is `Lowering.PopCtx` of the old |
| `Generator.CodeGenerator.AddToCtx` | src/aguda/codegen/CodeGenerator.java:48-50 | the new state is `Lowering.AddToCtx` of the old |
| `Generator.CodeGenerator.LookupCtx` | src/aguda/codegen/CodeGenerator.java:52-59 | the loop returns `Lowering.LookupCtx` |
| `Generator.CodeGenerator.GetNextRegister` | src/aguda/codegen/CodeGenerator.java:483-485 | result and state of `Lowering.NextRegister`, so no later call gives the same register (`LoweringFacts.RegistersNeverRepeat`) |
| `Generator.CodeGenerator.GetNextLabel` | src/aguda/codegen/CodeGenerator.java:493-495 | result and state of `Lowering.NextLabel`, so no later call gives the same label (`LoweringFacts.LabelsNeverRepeat`) |
| `Generator.CodeGenerator.AddErrorMessage` | src/aguda/codegen/CodeGenerator.java:443-475 | the new state is `Lowering.AddError` of the old |
| `Generator.CodeGenerator.ConvertAstToType` | src/aguda/codegen/CodeGenerator.java:238-282 | result and state of `Lowering.ConvertAstToType` |
| `Generator.CodeGenerator.ConvertAgudaTypeToLlvm` | src/aguda/codegen/CodeGenerator.java:290-301 | result and state of `Lowering.ConvertTypeToLlvm` |
| `Generator.CodeGenerator.DefinePowFunction` | src/aguda/codegen/CodeGenerator.java:385-421 | the new state is `Lowering.DefinePowFunction` of the old |
| `Generator.CodeGenerator.DefinePrintfFormat` | src/aguda/codegen/CodeGenerator.java:430-436 | the new state is `Lowering.DefinePrintfFormat` of the old |
| `Generator.CodeGenerator.DeclarePrintf` | src/aguda/codegen/GenerateExpr.java:390-392 | the new state is `Lowering.DeclarePrintf` of the old |
| `Generator.CodeGenerator.Generate` | src/aguda/codegen/CodeGenerator.java:85-201 | output or exception, and final state, of `Emission.Generate` |
| `Generator.CodeGenerator.BuildInitialContext` | src/aguda/codegen/CodeGenerator.java:209-230 | the new state is `Emission.DeclareFrom` of the old |
| `Generator.CodeGenerator.Declare` | src/aguda/codegen/CodeGenerator.java:212-228 | the new state is `Emission.Declare` of the old |
| `Generator.CodeGenerator.AddArgumentsToCtx` | src/aguda/codegen/CodeGenerator.java:336-382 | result and state of `Emission.AddArguments`, whose bindings and header text `EmissionFacts.ArgumentsBound` states |
| `Generator.CodeGenerator.AddArgument` | src/aguda/codegen/CodeGenerator.java:345-378 | the new state is `Emission.BindArgument` of the old, and the wildcard count moves on exactly for `_` |
| `Generator.CodeGenerator.EmitParameterSlots` | src/aguda/codegen/CodeGenerator.java:135-149 | the new state is `Emission.ParameterSlotsFrom` of the old, whose lines `EmissionFacts.ParameterSlotLines` states |
| `Generator.CodeGenerator.EmitDeclaration` | src/aguda/codegen/CodeGenerator.java:96-197 | result and state of `Emission.EmitDeclaration` |
| `Generator.CodeGenerator.EmitFunction` | src/aguda/codegen/CodeGenerator.java:97-172 | result and state of `Emission.EmitFunction`, whose text `EmissionFacts.FunctionText` states |
| `Generator.CodeGenerator.EmitGlobal` | src/aguda/codegen/CodeGenerator.java:174-197 | result and state of `Emission.EmitGlobal` |
| `Generator.CodeGenerator.GenerateExpr` | src/aguda/codegen/GenerateExpr.java:40-543 | result and state of `Lowering.GenExpr` |
| `Generator.CodeGenerator.GenerateLeaf` | src/aguda/codegen/GenerateExpr.java:42-55 | result and state of `Lowering.GenExpr` on leaves |
| `Generator.CodeGenerator.GenerateParen` | src/aguda/codegen/GenerateExpr.java:311-318 | result and state of `Lowering.GenExpr` on a parenthesis, the pushed and popped frame of `LoweringFacts.ValueParen` |
| `Generator.CodeGenerator.GenerateIdentifier` | src/aguda/codegen/GenerateExpr.java:56-83 | result and state of `Lowering.GenIdentifier`, whose load `LoweringFacts.IdentifierLoad` states |
| `Generator.CodeGenerator.GenerateUnary` | src/aguda/codegen/GenerateExpr.java:86-123 | result and state of `Lowering.GenExpr` on a unary operator: `-` as in `LoweringFacts.NegationShape`, `!` as in `NotChainParity` |
| `Generator.CodeGenerator.Negate` | src/aguda/codegen/GenerateExpr.java:91-98 | result and state of `Lowering.Negation`, whose `sub` `LoweringFacts.Negated` states |
| `Generator.CodeGenerator.Invert` | src/aguda/codegen/GenerateExpr.java:112-118 | result and state of `Lowering.Inversion` |
| `Generator.CodeGenerator.GenerateLogical` | src/aguda/codegen/GenerateExpr.java:130-149 | result and state of `Lowering.GenLogical` |
| `Generator.CodeGenerator.GenerateBinary` | src/aguda/codegen/GenerateExpr.java:151-203 | result and state of `Lowering.GenBinary` |
| `Generator.CodeGenerator.GenerateSequence` | src/aguda/codegen/GenerateExpr.java:207-230 | the loop's result and state are those of `Lowering.GenSequence` |
| `Generator.CodeGenerator.GenerateLet` | src/aguda/codegen/GenerateExpr.java:233-281 | result and state of `Lowering.GenLet` |
| `Generator.CodeGenerator.BindLet` | src/aguda/codegen/GenerateExpr.java:242-280 | result and state of `Lowering.LetBinding` |
| `Generator.CodeGenerator.GenerateSet` | src/aguda/codegen/GenerateExpr.java:284-308 | result and state of `Lowering.GenSet`, whose `store` `LoweringFacts.SetShape` states |
| `Generator.CodeGenerator.GenerateArguments` | src/aguda/codegen/GenerateExpr.java:400-412 | the loop's result and state are those of `Lowering.GenArguments`, in order as `LoweringFacts.ArgumentsInOrder` states |
| `Generator.CodeGenerator.GeneratePrint` | src/aguda/codegen/GenerateExpr.java:330-396 | result and state of `Lowering.GenPrint`, whose code `LoweringFacts.PrintShape` states |
| `Generator.CodeGenerator.GeneratePrintArgument` | src/aguda/codegen/GenerateExpr.java:342-388 | result and state of `Lowering.PrintArgument`, whose `printf` per type `LoweringFacts.PrintArgumentShape` states |
| `Generator.CodeGenerator.GenerateUserCall` | src/aguda/codegen/GenerateExpr.java:398-437 | result and state of `Lowering.GenUserCall`, whose `call` `LoweringFacts.UserCallShape` states |
| `Generator.CodeGenerator.GenerateIf` | src/aguda/codegen/GenerateExpr.java:441-510 | result and state of `Lowering.GenIf` |
| `Generator.CodeGenerator.GenerateWhile` | src/aguda/codegen/GenerateExpr.java:513-540 | result and state of `Lowering.GenWhile` |
| `Generator.CodeGenerator.GenerateCondExpr` | src/aguda/codegen/GenerateCondExpr.java:32-161 | result and state of `Lowering.GenCond` |
| `Generator.CodeGenerator.CondBool` | src/aguda/codegen/GenerateCondExpr.java:34-39 | result and state of `Lowering.GenCond` on a Bool literal |
| `Generator.CodeGenerator.CondUnary` | src/aguda/codegen/GenerateCondExpr.java:41-51 | result and state of `Lowering.GenCond` on a unary operator |
| `Generator.CodeGenerator.CondParen` | src/aguda/codegen/GenerateCondExpr.java:143-146 | result and state of `Lowering.GenCond` on a parenthesis, that is, of the inner condition in the same frame (`LoweringFacts.CondParen`) |
| `Generator.CodeGenerator.CondValue` | src/aguda/codegen/GenerateCondExpr.java:148-157 | result and state of `Lowering.GenCond` on any other node |
| `Generator.CodeGenerator.CondBinary` | src/aguda/codegen/GenerateCondExpr.java:53-117 | result and state of `Lowering.GenCond` on a binary operator |
| `Generator.CodeGenerator.CondLogical` | src/aguda/codegen/GenerateCondExpr.java:57-89 | result and state of `Lowering.CondLogical` |
| `Generator.CodeGenerator.CondCompare` | src/aguda/codegen/GenerateCondExpr.java:90-114 | result and state of `Lowering.CondCompare` |
| `Generator.CodeGenerator.CondSequence` | src/aguda/codegen/GenerateCondExpr.java:121-140 | the loop's result and state are those of `Lowering.CondSequence` |

## Left out

- Parsing (`AstBuilder`, the ANTLR grammar) and the driver (`Main`) are not part of this model. Only the driver's semantic-test step is kept, as `CheckerImpl.SemanticCheck`.
- File I/O: `error` prints the offending source line read from the file. The model keeps the position and message, and leaves out the excerpt.
- `Checker.getErrorMessage` and `CodeGenerator.getErrorMessage` take the printed program as a parameter. The regular-expression clean-up that `Program.print` applies is not modelled.
- JVM exception texts (`IndexOutOfBoundsException`, `NullPointerException`, `ClassCastException`) are approximated by their leading part in `Java.Message`.
- `Lowering.NextRegister`, `Lowering.NextLabel`: the 32-bit counters of the source are unbounded here; overflow after 2^31 names is not modelled.
- Integer literals carry their value; leading zeros in the source text are not modelled.
- The `@powi` helper text is one string constant. Its instructions are not modelled piece by piece.
- `GenerateExpr` and `GenerateCondExpr` hold only a reference to the generator, so their methods are methods of `Generator.CodeGenerator`.
- The generator's `errorMessage` builder is kept as the sequence of stored reports. The text is rebuilt in `Lowering.ErrorMessage`.
- `Lowering.GenExpr`, `Generator.CodeGenerator.GenerateExpr`: the empty-deque `NullPointerException` of `currentCtx()` is excluded by `requires st.frames != []`, which every caller in the source meets.
- The value-level `if` of `Lowering.GenIf` is described by its exit label (`ensures`) and by `LoweringFacts.IfJoinShape` and `LoweringFacts.BranchJumpsToJoin`. There is no single lemma for the whole code of an `if`.
- `Typing.BindEach`: a reserved or non-identifier parameter past the end of the type list is passed the placeholder Undeclared, which is never read.
- The behaviour that looks unintended is modelled as written:
  - the operand of the outermost `!` is lowered twice, and the first result is dropped (`GenerateExpr.java:101-104`);
  - both operands of a value-level binary operator are lowered at the entry label;
  - an unsupported operator in a condition calls `addErrorMessage` twice; the second call stores nothing for a positioned node;
  - global folding applies to any single unary operator over a literal;
  - `print` of a Unit value uses a `[3 x i8]` constant.
- The methods report a thrown `IndexOutOfBoundsException` as a returned `Crash`/exception value. There is no control-flow unwinding.
