/**
 * The code generator (`aguda.codegen`) as functions over one generator state. The
 * fields of `CodeGenerator` and the two mutually recursive walks of `GenerateExpr` and
 * `GenerateCondExpr` share that state, so every function here takes the state before
 * the call and gives the state after it, next to what the Java method returns.
 */
module Lowering {
  import opened Wrappers
  import opened Text
  import opened Types
  import opened Ast
  import opened Java
  import Printer
  import opened Ir

  /** `Ctx`: what the generator records about a name. */
  datatype Binding = Binding(ty: Option<Type>, reg: Option<string>, ptr: Option<string>,
                             isFunction: bool, insideFunction: Option<string>)

  type Frame = map<string, Binding>

  datatype Location = Location(line: int, column: int)

  /** The node an error message is about: an AST node, or the whole program. */
  datatype Site = NodeSite(node: Node) | ProgramSite(program: Program)

  /**
   * The fields of a `CodeGenerator`. `frames` is the `ctx` deque, head first;
   * `errors` holds one entry per stored message of `errorMessage`, and
   * `reported` the "line:column" keys of `reportedErrorLocations`.
   */
  datatype GenState = GenState(
    llvmCode: string,
    helperFunctions: string,
    errors: seq<Site>,
    tempCounter: int,
    labelCounter: int,
    frames: seq<Frame>,
    powFunctionDefined: bool,
    maxErrors: int,
    reported: set<Location>)

  /** `ReturnExpr`: code (null or text), value, type and exit label. */
  datatype Lowered = Lowered(code: Option<Code>, value: Option<string>, ty: Option<Type>, exit: Option<string>)

  /** `ReturnCondExpr`: code and exit label. */
  datatype Branched = Branched(code: Code, exit: Option<string>)

  /** What a generator method returns, next to the generator's new state. */
  datatype Gen<T> = Gen(out: T, st: GenState)

  const Nothing := Lowered(None, None, None, None)

  /** The state the constructor builds: counters at 1 and one empty global frame. */
  function Initial(maxErrors: int): GenState {
    GenState("", "", [], 1, 1, [map[]], false, maxErrors, {})
  }

  /**
   * What every step of the generator keeps: the counters never go back, and the
   * number of stored messages grows by exactly what `maxErrors` went down, which it
   * does only while it is positive.
   */
  predicate Grows(a: GenState, b: GenState) {
    && a.tempCounter <= b.tempCounter
    && a.labelCounter <= b.labelCounter
    && |b.errors| - |a.errors| == a.maxErrors - b.maxErrors
    && (b.maxErrors == a.maxErrors || 0 <= b.maxErrors < a.maxErrors)
  }

  /** A lowering step also leaves `llvmCode` and the depth of the frame stack as they were. */
  predicate Lowers(a: GenState, b: GenState) {
    Grows(a, b) && b.llvmCode == a.llvmCode && |b.frames| == |a.frames|
  }

  // ---------------------------------------------------------------------------------
  // The scope stack (`pushCtx`, `popCtx`, `addToCtx`, `lookupCtx`).

  /** `lookupCtx`: the binding in the innermost frame that has `name`, or null. */
  function LookupCtx(frames: seq<Frame>, name: string): (r: Option<Binding>)
    ensures r.Some? ==> exists k :: 0 <= k < |frames| && name in frames[k] && frames[k][name] == r.value
  {
    if frames == [] then None
    else if name in frames[0] then Some(frames[0][name])
    else LookupCtx(frames[1..], name)
  }

  function PushCtx(st: GenState): (r: GenState)
    ensures Grows(st, r) && r.llvmCode == st.llvmCode && r.frames == [map[]] + st.frames
  {
    st.(frames := [map[]] + st.frames)
  }

  function PopCtx(st: GenState): (r: GenState)
    requires st.frames != []
    ensures Grows(st, r) && r.llvmCode == st.llvmCode && r.frames == st.frames[1..]
  {
    st.(frames := st.frames[1..])
  }

  function AddToCtx(st: GenState, name: string, b: Binding): (r: GenState)
    requires st.frames != []
    ensures Lowers(st, r)
    ensures r.frames == [st.frames[0][name := b]] + st.frames[1..]
  {
    st.(frames := [st.frames[0][name := b]] + st.frames[1..])
  }

  // ---------------------------------------------------------------------------------
  // Fresh names.

  function RegisterName(n: int): string {
    "%v" + IntToString(n)
  }

  function LabelName(name: string, n: int): string {
    name + IntToString(n)
  }

  /** `getNextRegister`. */
  function NextRegister(st: GenState): (r: Gen<string>)
    ensures Lowers(st, r.st)
  {
    Gen(RegisterName(st.tempCounter), st.(tempCounter := st.tempCounter + 1))
  }

  /** `getNextLabel`. */
  function NextLabel(st: GenState, name: string): (r: Gen<string>)
    ensures Lowers(st, r.st)
  {
    Gen(LabelName(name, st.labelCounter), st.(labelCounter := st.labelCounter + 1))
  }

  // ---------------------------------------------------------------------------------
  // Error messages.

  function SitePos(s: Site): Pos {
    match s
    case NodeSite(n) => n.pos
    case ProgramSite(p) => p.pos
  }

  /** The location key of a report; a node at line or column -1 has none. */
  function Located(s: Site): Option<Location> {
    var p := SitePos(s);
    if p.line != -1 && p.column != -1 then Some(Location(p.line, p.column)) else None
  }

  /** `addErrorMessage`. */
  function AddError(st: GenState, s: Site): (r: GenState)
    ensures Lowers(st, r) && r.frames == st.frames
    ensures r.tempCounter == st.tempCounter && r.labelCounter == st.labelCounter
  {
    if st.maxErrors <= 0 then st
    else
      match Located(s)
      case Some(loc) =>
        if loc in st.reported then st
        else st.(reported := st.reported + {loc}, errors := st.errors + [s], maxErrors := st.maxErrors - 1)
      case None => st.(errors := st.errors + [s], maxErrors := st.maxErrors - 1)
  }

  /**
   * The line `addErrorMessage` appends for one report. The program node prints through
   * a regular-expression clean-up that this model does not include, so its printed
   * text is a parameter.
   */
  function ErrorText(s: Site, programText: string): string {
    var display :=
      match Located(s)
      case Some(l) => " (" + IntToString(l.line) + "," + IntToString(l.column) + ")"
      case None => "";
    var printed :=
      match s
      case NodeSite(n) => Printer.Print(n, 0)
      case ProgramSite(_) => programText;
    "Not implemented: Generation code for" + display + " expression '" + FirstLine(printed) + "'\n"
  }

  /** `getErrorMessage`. */
  function ErrorMessage(errors: seq<Site>, programText: string): (r: string)
    ensures r == "" <==> errors == []
  {
    if errors == [] then ""
    else ErrorMessage(errors[..|errors| - 1], programText) + ErrorText(errors[|errors| - 1], programText)
  }

  // ---------------------------------------------------------------------------------
  // Type conversions and operators.

  function BasicTypeNamed(name: string): (r: Option<Type>)
    ensures r.Some? <==> name in {"Int", "Bool", "Unit"}
  {
    if name == "Int" then Some(TInt)
    else if name == "Bool" then Some(TBool)
    else if name == "Unit" then Some(TUnit)
    else None
  }

  /** The type `convertAstToType` reads off a node: a basic type, or the return type of a function type. */
  function AstType(n: Node): Option<Type> {
    match n
    case BasicType(_, name) => BasicTypeNamed(name)
    case FunctionType(_, _, ret) => if ret.BasicType? then BasicTypeNamed(ret.typeName) else None
    case _ => None
  }

  /** `convertAstToType`: `AstType`, with an error for a node that has none. */
  function ConvertAstToType(st: GenState, n: Node): (r: Gen<Option<Type>>)
    ensures Lowers(st, r.st) && r.st.frames == st.frames
    ensures r.st.tempCounter == st.tempCounter && r.st.labelCounter == st.labelCounter
    ensures r.out == AstType(n)
  {
    var t := AstType(n);
    Gen(t, if t.None? then AddError(st, NodeSite(n)) else st)
  }

  /** The LLVM name of a type, when it has one. */
  function LlvmTypeName(t: Option<Type>): Option<string> {
    match t
    case Some(TInt) => Some("i32")
    case Some(TBool) => Some("i1")
    case Some(TUnit) => Some("i1")
    case _ => None
  }

  /** `convertAgudaTypetoLLVM`. */
  function ConvertTypeToLlvm(st: GenState, t: Option<Type>, s: Site): (r: Gen<Option<string>>)
    ensures Lowers(st, r.st) && r.st.frames == st.frames
    ensures r.st.tempCounter == st.tempCounter && r.st.labelCounter == st.labelCounter
  {
    var name := LlvmTypeName(t);
    Gen(name, if name.None? then AddError(st, s) else st)
  }

  /** `convertOperatorToLLVM`. */
  function ConvertOperator(op: string): (r: string)
    ensures op in Comparisons ==> r == "icmp " + Predicate(op)
    ensures op !in Comparisons ==> r != "" && r[0] != 'i'
  {
    match op
    case "+" => "add"
    case "-" => "sub"
    case "*" => "mul"
    case "/" => "sdiv"
    case "%" => "srem"
    case "<" => "icmp slt"
    case "<=" => "icmp sle"
    case ">" => "icmp sgt"
    case ">=" => "icmp sge"
    case "==" => "icmp eq"
    case "!=" => "icmp ne"
    case "&&" => "and"
    case "||" => "or"
    case _ => "exponent"
  }

  /** The result type of a value-level binary operator; null for an unknown one. */
  function BinaryResultType(op: string): Option<Type> {
    if op in {"+", "-", "*", "/", "%", "^"} then Some(TInt)
    else if op in {"<", "<=", ">", ">=", "==", "!=", "&&", "||"} then Some(TBool)
    else None
  }

  const Comparisons: set<string> := {"==", "!=", "<", "<=", ">", ">="}

  /** The `icmp` predicate of a comparison. */
  function Predicate(op: string): (r: string)
    requires op in Comparisons
    ensures r in {"eq", "ne", "slt", "sle", "sgt", "sge"}
    ensures (r == "eq" <==> op == "==") && (r == "ne" <==> op == "!=")
  {
    match op
    case "==" => "eq"
    case "!=" => "ne"
    case "<" => "slt"
    case "<=" => "sle"
    case ">" => "sgt"
    case ">=" => "sge"
  }

  // ---------------------------------------------------------------------------------
  // Helper definitions emitted once.

  /** The `@powi` helper text. */
  const PowiHelper: string :=
    "define i32 @powi(i32 %base, i32 %exp) {\n"
    + "entry:\n"
    + "    %result = alloca i32\n"
    + "    store i32 1, i32* %result\n"
    + "    %i = alloca i32\n"
    + "    store i32 0, i32* %i\n"
    + "\n"
    + "    br label %loop\n"
    + "\n"
    + "loop:\n"
    + "    %i_val = load i32, i32* %i\n"
    + "    %cond = icmp slt i32 %i_val, %exp\n"
    + "    br i1 %cond, label %body, label %end\n"
    + "\n"
    + "body:\n"
    + "    %res_val = load i32, i32* %result\n"
    + "    %mul = mul i32 %res_val, %base\n"
    + "    store i32 %mul, i32* %result\n"
    + "\n"
    + "    %i_val2 = load i32, i32* %i\n"
    + "    %inc = add i32 %i_val2, 1\n"
    + "    store i32 %inc, i32* %i\n"
    + "\n"
    + "    br label %loop\n"
    + "\n"
    + "end:\n"
    + "    %final = load i32, i32* %result\n"
    + "    ret i32 %final\n"
    + "}\n"
    + "\n"

  /** `definePowFunction`. */
  function DefinePowFunction(st: GenState): (r: GenState)
    ensures Lowers(st, r) && r.frames == st.frames
    ensures r.tempCounter == st.tempCounter && r.labelCounter == st.labelCounter
  {
    if st.powFunctionDefined then st
    else st.(helperFunctions := st.helperFunctions + PowiHelper, powFunctionDefined := true)
  }

  /** The constant `definePrintfFormat` appends. */
  function FormatConstant(content: string, ty: string, name: string): string {
    name + " = private unnamed_addr constant " + ty + " c\"" + content + "\", align 1\n"
  }

  /** `definePrintfFormat`. */
  function DefinePrintfFormat(st: GenState, content: string, ty: string, name: string): (r: GenState)
    ensures Lowers(st, r) && r.frames == st.frames
    ensures r.tempCounter == st.tempCounter && r.labelCounter == st.labelCounter
  {
    if Contains(st.helperFunctions, name) then st
    else st.(helperFunctions := st.helperFunctions + FormatConstant(content, ty, name))
  }

  const PrintfDeclaration := "\ndeclare i32 @printf(i8*, ...)\n\n"

  /** The `@printf` declaration a `print` call adds when no helper mentions `@printf` yet. */
  function DeclarePrintf(st: GenState): (r: GenState)
    ensures Lowers(st, r) && r.frames == st.frames
    ensures r.tempCounter == st.tempCounter && r.labelCounter == st.labelCounter
  {
    if Contains(st.helperFunctions, "@printf") then st
    else st.(helperFunctions := st.helperFunctions + PrintfDeclaration)
  }

  // ---------------------------------------------------------------------------------
  // `generateExpr` and `generateCondExpr`, one function per construct.
  //
  // The walks call each other on the same node (a value-level `&&` is lowered as a
  // condition, and a condition that is no `&&`, `||`, comparison, `!`, literal, sequence
  // or parenthesis is lowered as a value), so the second component of each measure
  // orders the two walks by the kind of node.

  predicate IsLogical(n: Node) {
    n.Binary? && (n.op == "&&" || n.op == "||")
  }

  function ExprRank(n: Node): nat {
    if IsLogical(n) then 4 else 1
  }

  /** `generateExpr(ctx, label, node)`. */
  function GenExpr(st: GenState, entry: Option<string>, n: Node): (r: Gen<Lowered>)
    requires st.frames != []
    ensures Lowers(st, r.st)
    decreases n, ExprRank(n)
  {
    match n
    case IntLit(_, v) => Gen(Lowered(None, Some(NatToString(v)), Some(TInt), entry), st)
    case BoolLit(_, b) => Gen(Lowered(None, Some(if b then "true" else "false"), Some(TBool), entry), st)
    case NullLit(_) => Gen(Lowered(None, Some("1"), Some(TUnit), entry), st)
    case StringLit(_, _) => Gen(Nothing, AddError(st, NodeSite(n)))
    case ArrayType(_, _, _) => Gen(Nothing, AddError(st, NodeSite(n)))
    case Identifier(_, _) => GenIdentifier(st, entry, n)
    case Unary(_, op, e) =>
      var a := GenExpr(st, entry, e);
      if op == "-" then Negation(a, n)
      else if op == "!" then GenNegations(a.st, entry, e, 1, n)
      else Gen(Nothing, a.st)
    case Binary(_, op, _, _) =>
      if op == "&&" || op == "||" then GenLogical(st, entry, n) else GenBinary(st, entry, n)
    case Exprs(_, _, _) => GenSequence(st, entry, n, 0, [], None, None)
    case Let(_, _, _, _) => GenLet(st, entry, n)
    case SetExpr(_, _, _) => GenSet(st, entry, n)
    case Paren(_, e) =>
      var a := GenExpr(PushCtx(st), entry, e);
      Gen(a.out, PopCtx(a.st))
    case Call(_, id, _) => if id == "print" then GenPrint(st, entry, n) else GenUserCall(st, entry, n)
    case If(_, _, _, _) => GenIf(st, entry, n)
    case While(_, _, _) => GenWhile(st, entry, n)
    case _ => Gen(Nothing, st)
  }

  /** An identifier: a load through its slot or its global, or its register itself for Unit. */
  function GenIdentifier(st: GenState, entry: Option<string>, n: Node): (r: Gen<Lowered>)
    requires n.Identifier?
    ensures Lowers(st, r.st)
  {
    var b := LookupCtx(st.frames, n.name);
    var ty := ConvertTypeToLlvm(st, if b.Some? then b.value.ty else None, NodeSite(n));
    match b
    case None => Gen(Lowered(Some([]), None, None, entry), ty.st)
    case Some(v) =>
      var reg := NextRegister(ty.st);
      if v.ty == Some(TUnit) then Gen(Lowered(Some([]), v.reg, v.ty, entry), reg.st)
      else if v.ptr.Some? && v.reg.Some? && !StartsWith(v.reg.value, "@") then
        Gen(Lowered(Some([Tab, Load(reg.out, ty.out, v.ptr), Nl]), Some(reg.out), v.ty, entry), reg.st)
      else if v.reg.Some? && StartsWith(v.reg.value, "@") then
        Gen(Lowered(Some([Tab, Load(reg.out, ty.out, v.reg), Nl]), Some(reg.out), v.ty, entry), reg.st)
      else Gen(Lowered(Some([]), v.reg, v.ty, entry), reg.st)
  }

  /** `- e`, once `e` is lowered: one `sub` from zero. */
  function Negation(a: Gen<Lowered>, n: Node): (r: Gen<Lowered>)
    ensures Lowers(a.st, r.st)
  {
    var ty := ConvertTypeToLlvm(a.st, a.out.ty, NodeSite(n));
    var res := NextRegister(ty.st);
    Gen(Lowered(Some(Then(a.out.code, [Semi]) + [Sub0(res.out, ty.out, a.out.value)]),
                Some(res.out), a.out.ty, a.out.exit), res.st)
  }

  /** An odd number of `!`, once the innermost operand is lowered: one `xor` with 1. */
  function Inversion(a: Gen<Lowered>, n: Node): (r: Gen<Lowered>)
    ensures Lowers(a.st, r.st)
  {
    var ty := ConvertTypeToLlvm(a.st, a.out.ty, NodeSite(n));
    var res := NextRegister(ty.st);
    Gen(Lowered(Some(Then(a.out.code, [Semi, Nl]) + [XorOne(res.out, ty.out, a.out.value)]),
                Some(res.out), a.out.ty, a.out.exit), res.st)
  }

  /**
   * The loop that counts the `!` of a chain (`negations` so far, `current` the operand
   * reached), then lowers the innermost operand and inverts it when the count is odd.
   */
  function GenNegations(st: GenState, entry: Option<string>, current: Node, negations: nat, n: Node): (r: Gen<Lowered>)
    requires st.frames != []
    ensures Lowers(st, r.st)
    decreases current, 5
  {
    if current.Unary? && current.op == "!" then GenNegations(st, entry, current.operand, negations + 1, n)
    else
      var inner := GenExpr(st, entry, current);
      if negations % 2 == 1 then Inversion(inner, n) else inner
  }

  /** A value-level `&&` or `||`: the condition, two blocks that jump to `join`, and a phi. */
  function GenLogical(st: GenState, entry: Option<string>, n: Node): (r: Gen<Lowered>)
    requires st.frames != [] && IsLogical(n)
    ensures Lowers(st, r.st)
    decreases n, 3
  {
    var tt := NextLabel(st, "true");
    var ff := NextLabel(tt.st, "false");
    var join := NextLabel(ff.st, "join");
    var c := GenCond(join.st, entry, tt.out, ff.out, n);
    LogicalJoin(c, tt.out, ff.out, join.out)
  }

  function LogicalJoin(c: Gen<Branched>, tt: string, ff: string, join: string): (r: Gen<Lowered>)
    ensures Lowers(c.st, r.st)
  {
    var res := NextRegister(c.st);
    Gen(Lowered(Some(c.out.code + [Nl, Head(tt), Nl, Tab, Br(join), Nl, Nl, Head(ff), Nl, Tab, Br(join), Nl,
                                   Nl, Head(join), Nl, Tab, BoolPhi(res.out, tt, ff), Nl]),
                Some(res.out), Some(TBool), Some(join)), res.st)
  }

  /** Any other binary operator: both operands at the entry label, then one instruction. */
  function GenBinary(st: GenState, entry: Option<string>, n: Node): (r: Gen<Lowered>)
    requires st.frames != [] && n.Binary?
    ensures Lowers(st, r.st)
    decreases n, 0
  {
    var left := GenExpr(st, entry, n.left);
    var right := GenExpr(left.st, entry, n.right);
    BinaryInstruction(left.out, right, entry, n)
  }

  function BinaryInstruction(left: Lowered, right: Gen<Lowered>, entry: Option<string>, n: Node): (r: Gen<Lowered>)
    requires n.Binary?
    ensures Lowers(right.st, r.st)
  {
    var code := Then(left.code, [Semi]) + Then(right.out.code, [Semi]);
    var ty := ConvertTypeToLlvm(right.st, left.ty, NodeSite(n));
    var instr :=
      if n.op == "^" then
        var res := NextRegister(DefinePowFunction(ty.st));
        Gen(PowCall(res.out, ty.out, left.value, right.out.value), res.st)
      else
        var res := NextRegister(ty.st);
        Gen(BinInstr(res.out, ConvertOperator(n.op), ty.out, left.value, right.out.value), res.st);
    var resultType := BinaryResultType(n.op);
    Gen(Lowered(Some(code + [instr.out, Nl]), Some(instr.out.reg), resultType, entry),
        if resultType.None? then AddError(instr.st, NodeSite(n)) else instr.st)
  }

  /**
   * The loop over a sequence from element `i` on, with the code, value and type built
   * so far; the label is threaded from each element to the next.
   */
  function GenSequence(st: GenState, entry: Option<string>, n: Node, i: nat, code: Code,
                       value: Option<string>, ty: Option<Type>): (r: Gen<Lowered>)
    requires st.frames != [] && n.Exprs? && i <= |n.items|
    ensures Lowers(st, r.st)
    decreases n, 0, |n.items| - i
  {
    if i == |n.items| then Gen(Lowered(Some(code), value, ty, entry), st)
    else
      var e := GenExpr(st, entry, n.items[i]);
      if i == |n.items| - 1 then
        GenSequence(e.st, e.out.exit, n, i + 1, code + OrEmpty(e.out.code), e.out.value, e.out.ty)
      else
        GenSequence(e.st, e.out.exit, n, i + 1, code + Then(e.out.code, [Semi]), value, ty)
  }

  /** `let`: the body in a fresh frame, then a slot in the enclosing frame. */
  function GenLet(st: GenState, entry: Option<string>, n: Node): (r: Gen<Lowered>)
    requires st.frames != [] && n.Let?
    ensures Lowers(st, r.st)
    decreases n, 0
  {
    var v := GenExpr(PushCtx(st), entry, n.block);
    LetBinding(v.out, PopCtx(v.st), n)
  }

  /** The value a `let` stores: `1` for an Int or Bool bound as Unit, and for a null value. */
  function StoredValue(v: Lowered, declared: Option<Type>): string {
    if v.ty.Some? && v.ty != declared && declared == Some(TUnit) && v.ty.value in {TInt, TBool} then "1"
    else v.value.GetOr("1")
  }

  /** A `let` whose value has a type other than the declared one, short of the Unit cast. */
  predicate LetMismatch(actual: Option<Type>, declared: Option<Type>) {
    actual.Some? && actual != declared && !(declared == Some(TUnit) && actual.value in {TInt, TBool})
  }

  function LetBinding(v: Lowered, st: GenState, n: Node): (r: Gen<Lowered>)
    requires st.frames != [] && n.Let?
    ensures Grows(st, r.st) && r.st.llvmCode == st.llvmCode && |r.st.frames| == |st.frames|
  {
    var declared := ConvertAstToType(st, n.letType);
    var ty := ConvertTypeToLlvm(declared.st, declared.out, NodeSite(n));
    var slot := "%ptr_" + Sanitize(n.id) + IntToString(ty.st.tempCounter);
    var name := "%" + Sanitize(n.id) + IntToString(ty.st.tempCounter + 1);
    var counted := ty.st.(tempCounter := ty.st.tempCounter + 2);
    var checked := if LetMismatch(v.ty, declared.out) then AddError(counted, NodeSite(n)) else counted;
    var bound := AddToCtx(checked, n.id, Binding(declared.out, Some(name), Some(slot), false, None));
    Gen(Lowered(Some(OrEmpty(v.code) + [Tab, Alloca(slot, ty.out), Nl,
                                        Tab, Store(ty.out, Some(StoredValue(v, declared.out)), Some(slot)), Nl,
                                        Tab, Load(name, ty.out, Some(slot)), Nl]),
                Some(name), declared.out, v.exit), bound)
  }

  /** `set`: the value in a fresh frame, then one `store` through the variable's slot. */
  function GenSet(st: GenState, entry: Option<string>, n: Node): (r: Gen<Lowered>)
    requires st.frames != [] && n.SetExpr?
    ensures Lowers(st, r.st)
    decreases n, 0
  {
    var v := GenExpr(PushCtx(st), entry, n.rhs);
    Assignment(v.out, PopCtx(v.st), n)
  }

  function Assignment(v: Lowered, st: GenState, n: Node): (r: Gen<Lowered>)
    requires n.SetExpr?
    ensures Lowers(st, r.st)
  {
    var b := if n.lhs.Identifier? then LookupCtx(st.frames, n.lhs.name) else None;
    var ty := ConvertTypeToLlvm(st, if b.Some? then b.value.ty else None, NodeSite(n));
    Gen(Lowered(Some(OrEmpty(v.code) + [Nl, Tab, Store(ty.out, v.value, if b.Some? then b.value.ptr else None), Nl]),
                None, Some(TUnit), v.exit), ty.st)
  }

  /** The number of arguments a call's argument node stands for. */
  function ArgCount(args: Node): nat {
    if args.Exprs? then |args.items| else 1
  }

  /** Every argument lowered at the call's entry label, in order, from argument `i` on. */
  function GenArguments(st: GenState, entry: Option<string>, args: Node, i: nat, done: seq<Lowered>): (r: Gen<seq<Lowered>>)
    requires st.frames != [] && i <= ArgCount(args)
    ensures Lowers(st, r.st) && |r.out| == |done| + ArgCount(args) - i
    decreases args, 5, ArgCount(args) - i
  {
    if i == ArgCount(args) then Gen(done, st)
    else
      var a := GenExpr(st, entry, if args.Exprs? then args.items[i] else args);
      GenArguments(a.st, entry, args, i + 1, done + [a.out])
  }

  /** `print(...)`: the arguments, then one `printf` per Int, Bool or Unit argument. */
  function GenPrint(st: GenState, entry: Option<string>, n: Node): (r: Gen<Lowered>)
    requires st.frames != [] && n.Call?
    ensures Lowers(st, r.st)
    decreases n, 0
  {
    var args := GenArguments(st, entry, n.args, 0, []);
    var printed := PrintEach(args.st, n, args.out, 0, []);
    Gen(Lowered(Some(printed.out), Some(""), Some(TUnit), entry), DeclarePrintf(printed.st))
  }

  function PrintEach(st: GenState, n: Node, args: seq<Lowered>, i: nat, code: Code): (r: Gen<Code>)
    requires i <= |args|
    ensures Lowers(st, r.st)
    decreases |args| - i
  {
    if i == |args| then Gen(code, st)
    else
      var p := PrintArgument(st, n, args[i]);
      PrintEach(p.st, n, args, i + 1, code + p.out)
  }

  /** The code `print` emits for one lowered argument, by its type. */
  function PrintArgument(st: GenState, n: Node, a: Lowered): (r: Gen<Code>)
    ensures Lowers(st, r.st)
  {
    var prefix := Then(a.code, [Semi]);
    match a.ty
    case Some(TInt) =>
      var g := NextRegister(DefinePrintfFormat(st, "%d\\00", "[3 x i8]", "@.fmt.int"));
      Gen(prefix + [Gep(g.out, "[3 x i8]", "@.fmt.int"), Semi, PrintfInt(g.out, a.value)], g.st)
    case Some(TBool) =>
      var defined := DefinePrintfFormat(DefinePrintfFormat(st, "true\\00", "[5 x i8]", "@.str.true"),
                                        "false\\00", "[6 x i8]", "@.str.false");
      var cmp := NextRegister(defined);
      var res := NextRegister(cmp.st);
      Gen(prefix + [IsTrue(cmp.out, a.value), Semi, SelectBoolText(res.out, cmp.out), Semi, PrintfText(res.out)], res.st)
    case Some(TUnit) =>
      var g := NextRegister(DefinePrintfFormat(st, "unit\\00", "[5 x i8]", "@.str.unit"));
      Gen(prefix + [Gep(g.out, "[3 x i8]", "@.str.unit"), Semi, PrintfText(g.out)], g.st)
    case Some(TString) => Gen(prefix, AddError(st, NodeSite(n)))
    case _ => Gen(prefix, st)
  }

  /** A call of a declared function: the arguments, then one `call`. */
  function GenUserCall(st: GenState, entry: Option<string>, n: Node): (r: Gen<Lowered>)
    requires st.frames != [] && n.Call?
    ensures Lowers(st, r.st)
    decreases n, 0
  {
    var args := GenArguments(st, entry, n.args, 0, []);
    CallInstruction(args, entry, n)
  }

  function CallInstruction(args: Gen<seq<Lowered>>, entry: Option<string>, n: Node): (r: Gen<Lowered>)
    requires n.Call?
    ensures Lowers(args.st, r.st)
  {
    var passed := PassEach(args.st, n, args.out, 0, [], []);
    var found := LookupCtx(passed.st.frames, n.id);
    var returnType := if found.Some? then found.value.ty else Some(TUnit);
    var ty := ConvertTypeToLlvm(passed.st, returnType, NodeSite(n));
    var res := NextRegister(ty.st);
    Gen(Lowered(Some(passed.out.0 + [Invoke(res.out, ty.out, n.id, passed.out.1)]), Some(res.out), returnType, entry), res.st)
  }

  /** Each argument's code, and its `type value` text for the call, from argument `i` on. */
  function PassEach(st: GenState, n: Node, args: seq<Lowered>, i: nat, code: Code, texts: seq<string>): (r: Gen<(Code, seq<string>)>)
    requires i <= |args|
    ensures Lowers(st, r.st) && |r.out.1| == |texts| + |args| - i
    decreases |args| - i
  {
    if i == |args| then Gen((code, texts), st)
    else
      var ty := ConvertTypeToLlvm(st, args[i].ty, NodeSite(n));
      PassEach(ty.st, n, args, i + 1, code + Then(args[i].code, [Semi]), texts + [PassedText(ty.out, args[i].value)])
  }

  /** One argument as a call passes it: its LLVM type, a space, its value. */
  function PassedText(ty: Option<string>, value: Option<string>): string {
    J(ty) + " " + J(value)
  }

  /** `if`: the condition, both branches each in a fresh frame, and a phi at `join`. */
  function GenIf(st: GenState, entry: Option<string>, n: Node): (r: Gen<Lowered>)
    requires st.frames != [] && n.If?
    ensures Lowers(st, r.st)
    ensures r.out.exit == Some(LabelName("join", st.labelCounter + 2))
    decreases n, 0
  {
    var tt := NextLabel(st, "true");
    var ff := NextLabel(tt.st, "false");
    var join := NextLabel(ff.st, "join");
    var c := GenCond(PushCtx(join.st), entry, tt.out, ff.out, n.cond);
    var t := GenExpr(PushCtx(PopCtx(c.st)), Some(tt.out), n.thenBranch);
    var thenTy := ConvertTypeToLlvm(PopCtx(t.st), t.out.ty, NodeSite(n));
    var e :=
      if n.elseBranch.Some? then GenExpr(PushCtx(thenTy.st), Some(ff.out), n.elseBranch.value)
      else Gen(Nothing, PushCtx(thenTy.st));
    IfJoin(c.out, t.out, thenTy.out, e.out, PopCtx(e.st), tt.out, ff.out, join.out)
  }

  /** A branch's value in the phi: `1` when it is null or empty. */
  function PhiValue(v: Option<string>): string {
    if v.Some? && v.value != "" then v.value else "1"
  }

  /** A branch's code followed by its jump to `join`. */
  function BranchCode(code: Option<Code>, join: string): Code {
    match code
    case Some(c) => c + [Nl, Tab, Br(join)]
    case None => [Br(join)]
  }

  function IfJoin(c: Branched, t: Lowered, thenTy: Option<string>, e: Lowered, st: GenState,
                  tt: string, ff: string, join: string): (r: Gen<Lowered>)
    ensures Lowers(st, r.st)
  {
    var res := NextRegister(st);
    var phi := Phi(res.out, thenTy, PhiValue(t.value), t.exit.GetOr(tt), PhiValue(e.value), e.exit.GetOr(ff));
    Gen(Lowered(Some(c.code + [Nl, Head(tt), Nl, Tab] + BranchCode(t.code, join)
                     + [Nl, Head(ff), Nl, Tab] + BranchCode(e.code, join)
                     + [Nl, Head(join), Nl, Tab, phi]),
                Some(res.out), t.ty, Some(join)), res.st)
  }

  /** `while`: a jump to the condition, the condition, the body and the jump back. */
  function GenWhile(st: GenState, entry: Option<string>, n: Node): (r: Gen<Lowered>)
    requires st.frames != [] && n.While?
    ensures Lowers(st, r.st)
    decreases n, 0
  {
    var cond := NextLabel(st, "while_cond");
    var body := NextLabel(cond.st, "while_body");
    var end := NextLabel(body.st, "while_end");
    var c := GenCond(PushCtx(end.st), Some(cond.out), body.out, end.out, n.cond);
    var b := GenExpr(PushCtx(PopCtx(c.st)), Some(body.out), n.body);
    Gen(Lowered(Some([Br(cond.out), Nl, Head(cond.out), Nl] + c.out.code + [Head(body.out), Nl]
                     + OrNullText(b.out.code) + [Tab, Br(cond.out), Nl, Head(end.out), Nl]),
                None, Some(TUnit), Some(end.out)), PopCtx(b.st))
  }

  /** `generateCondExpr(ctx, label, tt, ff, node)`. */
  function GenCond(st: GenState, entry: Option<string>, tt: string, ff: string, n: Node): (r: Gen<Branched>)
    requires st.frames != []
    ensures Lowers(st, r.st)
    decreases n, 2
  {
    match n
    case BoolLit(_, b) =>
      var target := if b then tt else ff;
      Gen(Branched([Tab, Br(target), Nl], Some(target)), st)
    case Unary(_, op, e) =>
      if op == "!" then GenCond(st, entry, ff, tt, e)
      else Gen(Branched([], entry), AddError(AddError(st, NodeSite(n)), NodeSite(n)))
    case Binary(_, op, _, _) =>
      if op == "&&" || op == "||" then CondLogical(st, entry, tt, ff, n)
      else if op in Comparisons then CondCompare(st, entry, tt, ff, n)
      else Gen(Branched([], entry), AddError(AddError(st, NodeSite(n)), NodeSite(n)))
    case Exprs(_, _, _) => CondSequence(st, entry, tt, ff, n, 0, [])
    case Paren(_, e) => GenCond(st, entry, tt, ff, e)
    case _ =>
      var v := GenExpr(st, entry, n);
      Gen(Branched(OrEmpty(v.out.code) + [Nl, Tab, CondBr(v.out.value, tt, ff), Nl], v.out.exit), v.st)
  }

  /** A short-circuit `&&` or `||`: the left operand jumps into a fresh label for the right one. */
  function CondLogical(st: GenState, entry: Option<string>, tt: string, ff: string, n: Node): (r: Gen<Branched>)
    requires st.frames != [] && IsLogical(n)
    ensures Lowers(st, r.st)
    decreases n, 1
  {
    var isAnd := n.op == "&&";
    var l2 := NextLabel(st, if isAnd then "and" else "or");
    var r1 := if isAnd then GenCond(l2.st, entry, l2.out, ff, n.left) else GenCond(l2.st, entry, tt, l2.out, n.left);
    var r2 := GenCond(r1.st, Some(l2.out), tt, ff, n.right);
    Gen(Branched(r1.out.code + [Head(l2.out), Nl, Tab] + r2.out.code, r2.out.exit), r2.st)
  }

  /** A comparison: both operands, the second at the first's exit, then `icmp` and `br i1`. */
  function CondCompare(st: GenState, entry: Option<string>, tt: string, ff: string, n: Node): (r: Gen<Branched>)
    requires st.frames != [] && n.Binary? && n.op in Comparisons
    ensures Lowers(st, r.st)
    decreases n, 1
  {
    var left := GenExpr(st, entry, n.left);
    var right := GenExpr(left.st, left.out.exit, n.right);
    CompareBranch(left.out, right, tt, ff, n)
  }

  function CompareBranch(left: Lowered, right: Gen<Lowered>, tt: string, ff: string, n: Node): (r: Gen<Branched>)
    requires n.Binary? && n.op in Comparisons
    ensures Lowers(right.st, r.st)
  {
    var ty := ConvertTypeToLlvm(right.st, left.ty, NodeSite(n));
    var tmp := NextRegister(ty.st);
    Gen(Branched(OrEmpty(left.code) + OrEmpty(right.out.code)
                 + [Tab, Icmp(tmp.out, Predicate(n.op), ty.out, left.value, right.out.value), Nl,
                    Tab, CondBr(Some(tmp.out), tt, ff), Nl],
                 right.out.exit), tmp.st)
  }

  /** The loop over a sequence of conditions from element `i` on, threading the label. */
  function CondSequence(st: GenState, entry: Option<string>, tt: string, ff: string, n: Node, i: nat, code: Code): (r: Gen<Branched>)
    requires st.frames != [] && n.Exprs? && i <= |n.items|
    ensures Lowers(st, r.st)
    decreases n, 1, |n.items| - i
  {
    if i == |n.items| then Gen(Branched(code, entry), st)
    else
      var e := GenCond(st, entry, tt, ff, n.items[i]);
      CondSequence(e.st, e.out.exit, tt, ff, n, i + 1, code + e.out.code + (if i == |n.items| - 1 then [] else [Semi]))
  }
}
