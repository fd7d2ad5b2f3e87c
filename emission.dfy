/**
 * `CodeGenerator.generate` over the generator state: the global frame is filled
 * first, then each function is emitted as a `define` and each variable as a `global`.
 * The one exception the method can raise here (an `IndexOutOfBoundsException` when a
 * function has more parameters than parameter types) and the null dereference of a
 * declaration that is not in the context are returned, not thrown.
 */
module Emission {
  import opened Wrappers
  import opened Text
  import opened Types
  import opened Ast
  import opened Java
  import opened Ir
  import opened Lowering

  /** A step of `generate` that may throw: the exception, if any, and the new state. */
  type Emit = Gen<Option<Exception>>

  /** The binding `buildInitialContext` makes for one declaration, if it is one. */
  function Declare(st: GenState, d: Node): (r: GenState)
    requires st.frames != []
    ensures Grows(st, r) && r.llvmCode == st.llvmCode && |r.frames| == |st.frames|
  {
    match d
    case FunDecl(_, idList, functionType, _) =>
      var t := ConvertAstToType(st, functionType);
      AddToCtx(t.st, idList.id, Binding(t.out, Some("@" + Sanitize(idList.id)), None, true, None))
    case VarDecl(_, id, typeElem, _) =>
      var t := ConvertAstToType(st, typeElem);
      var ptr := "%ptr_" + Sanitize(id) + IntToString(t.st.tempCounter);
      AddToCtx(t.st.(tempCounter := t.st.tempCounter + 1), id, Binding(t.out, Some("@" + id), Some(ptr), false, None))
    case _ => st
  }

  /** `buildInitialContext`, from declaration `i` on. */
  function DeclareFrom(st: GenState, decls: seq<Node>, i: nat): (r: GenState)
    requires st.frames != [] && i <= |decls|
    ensures Grows(st, r) && r.llvmCode == st.llvmCode && |r.frames| == |st.frames|
    decreases |decls| - i
  {
    if i == |decls| then st else DeclareFrom(Declare(st, decls[i]), decls, i + 1)
  }

  /** The name a parameter is bound under: the `k`-th wildcard becomes `__wild` + k. */
  function ParameterName(id: string, wild: nat): string {
    if id == "_" then "__wild" + NatToString(wild) else id
  }

  /** `addArgumentsToCtx` from parameter `i` on, `wild` wildcards seen so far. */
  function AddArgumentsFrom(st: GenState, ids: seq<Node>, types: seq<Node>, functionName: string,
                            site: Site, i: nat, wild: nat): (r: Emit)
    requires st.frames != [] && i <= |ids|
    ensures Grows(st, r.st) && |r.st.frames| == |st.frames|
    decreases |ids| - i
  {
    if i == |ids| then Gen(None, st)
    else if i >= |types| then Gen(Some(IndexOutOfBoundsException(i, |types|)), st)
    else if !ids[i].Identifier? then AddArgumentsFrom(st, ids, types, functionName, site, i + 1, wild)
    else
      AddArgumentsFrom(BindArgument(st, ids, types, functionName, site, i, wild), ids, types, functionName, site,
                       i + 1, if ids[i].name == "_" then wild + 1 else wild)
  }

  /**
   * One identifier parameter of `addArgumentsToCtx`: bound in the top frame under its
   * (renamed) name to its type, the register `%` + name and a `%ptr_` slot numbered by
   * the register counter, which moves on; its type and register go to the header.
   */
  function BindArgument(st: GenState, ids: seq<Node>, types: seq<Node>, functionName: string,
                        site: Site, i: nat, wild: nat): (r: GenState)
    requires st.frames != [] && i < |ids| && i < |types| && ids[i].Identifier?
    ensures Grows(st, r) && |r.frames| == |st.frames|
  {
    var t := ConvertAstToType(st, types[i]);
    var ty := ConvertTypeToLlvm(t.st, t.out, site);
    var id := ParameterName(ids[i].name, wild);
    var ptr := "%ptr_" + Sanitize(id) + IntToString(ty.st.tempCounter);
    var bound := AddToCtx(ty.st.(tempCounter := ty.st.tempCounter + 1), id,
                          Binding(t.out, Some("%" + id), Some(ptr), false, Some(functionName)));
    bound.(llvmCode := bound.llvmCode + ParameterText(ty.out, id, i == |ids| - 1))
  }

  /** The header text of one parameter: its LLVM type and register, then `, ` unless it is the last. */
  function ParameterText(ty: Option<string>, id: string, last: bool): string {
    J(ty) + " %" + id + (if last then "" else ", ")
  }

  /** `addArgumentsToCtx`; null types report an error and add nothing. */
  function AddArguments(st: GenState, ids: seq<Node>, types: Option<seq<Node>>, functionName: string, site: Site): (r: Emit)
    requires st.frames != []
    ensures Grows(st, r.st) && |r.st.frames| == |st.frames|
  {
    match types
    case None => Gen(None, AddError(st, site))
    case Some(ts) => AddArgumentsFrom(st, ids, ts, functionName, site, 0, 0)
  }

  /** The parameter types `generate` reads off a function type: a list, one basic type, or null. */
  function ParameterTypes(functionType: Node): (r: Option<seq<Node>>)
    ensures r.Some? <==> functionType.FunctionType? && (functionType.params.TypeList? || functionType.params.BasicType?)
    ensures r.Some? && functionType.params.BasicType? ==> |r.value| == 1
  {
    if functionType.FunctionType? then
      match functionType.params
      case TypeList(_, ts) => Some(ts)
      case BasicType(_, _) => Some([functionType.params])
      case _ => None
    else None
  }

  /**
   * The two lines one parameter's binding gives: an `alloca` of its slot, then a `store`
   * of its register into it, both at the LLVM type `convertAgudaTypetoLLVM` gives.
   */
  function SlotLines(b: Option<Binding>): string {
    var ty := J(LlvmTypeName(if b.Some? then b.value.ty else None));
    var ptr := J(if b.Some? then b.value.ptr else None);
    var reg := J(if b.Some? then b.value.reg else None);
    "\t" + ptr + " = alloca " + ty + "\n" + "\tstore " + ty + " " + reg + ", " + ty + "* " + ptr + "\n"
  }

  /** The `alloca` and `store` of each identifier parameter, from parameter `i` on. */
  function ParameterSlotsFrom(st: GenState, ids: seq<Node>, site: Site, i: nat, wild: nat): (r: GenState)
    requires i <= |ids|
    ensures Grows(st, r) && r.frames == st.frames
    decreases |ids| - i
  {
    if i == |ids| then st
    else if !ids[i].Identifier? then ParameterSlotsFrom(st, ids, site, i + 1, wild)
    else
      var b := LookupCtx(st.frames, ParameterName(ids[i].name, wild));
      var ty := ConvertTypeToLlvm(st, if b.Some? then b.value.ty else None, site);
      var written := ty.st.(llvmCode := ty.st.llvmCode + SlotLines(b));
      ParameterSlotsFrom(written, ids, site, i + 1, if ids[i].name == "_" then wild + 1 else wild)
  }

  /** One line per non-blank `;`-separated part of a body, in order. */
  function InstructionLines(parts: seq<string>): (r: string)
    ensures Lines(r)
  {
    if parts == [] then "" else InstructionLines(parts[..|parts| - 1]) + InstructionLine(parts[|parts| - 1])
  }

  lemma InstructionLinesSnoc(parts: seq<string>, i: nat)
    requires i < |parts|
    ensures InstructionLines(parts[..i + 1]) == InstructionLines(parts[..i]) + InstructionLine(parts[i])
  {
    assert parts[..i + 1][..i] == parts[..i];
  }

  /** The line of one part: tab, the trimmed part, newline; nothing for a blank part. */
  function InstructionLine(part: string): (r: string)
    ensures Lines(r)
  {
    var instr := Trim(part);
    if instr == "" then "" else "\t" + instr + "\n"
  }

  /** Empty, or tab-indented and ending in a newline. */
  predicate Lines(s: string) {
    s == "" || (s[0] == '\t' && s[|s| - 1] == '\n')
  }

  /** The text `generate` writes for a function body's code: tab-indented lines, none without code. */
  function BodyLines(code: Option<Code>): (r: string)
    ensures Lines(r)
    ensures code.None? ==> r == ""
  {
    match code
    case None => ""
    case Some(c) => if IsBlank(Render(c)) then "" else InstructionLines(JavaSplit(Render(c), ';'))
  }

  /** The closing `ret` and brace of a function. */
  function Epilogue(id: string, ty: Option<string>, value: Option<string>): (r: string)
    ensures StartsWith(r, "\tret ") && EndsWith(r, "\n}\n")
  {
    if id == "main" then "\tret i1 1\n}\n"
    else "\tret " + J(ty) + " " + (if value.Some? && value.value != "" then value.value else "1") + "\n" + "}\n"
  }

  /** One function declaration: header, parameters, parameter slots, body and `ret`. */
  function EmitFunction(st: GenState, p: Program, d: Node): (r: Emit)
    requires st.frames != [] && d.FunDecl?
    ensures Grows(st, r.st) && (r.out.None? ==> |r.st.frames| == |st.frames|)
  {
    var id := d.idList.id;
    match LookupCtx(st.frames, id)
    case None => Gen(Some(NullDereference("aguda.codegen.datastructures.Ctx.getReg()", "functionCtx")), st)
    case Some(fc) =>
      var ty := ConvertTypeToLlvm(st, fc.ty, ProgramSite(p));
      var header := ty.st.(llvmCode := ty.st.llvmCode + "\ndefine " + J(ty.out) + " " + J(fc.reg) + "(");
      var args := AddArguments(PushCtx(header), d.idList.ids, ParameterTypes(d.functionType), id, ProgramSite(p));
      if args.out.Some? then args
      else
        var started := args.st.(llvmCode := args.st.llvmCode + ") {\n" + "entry:\n");
        var slots := ParameterSlotsFrom(started, d.idList.ids, ProgramSite(p), 0, 0);
        var body := GenExpr(slots, Some("entry"), d.exprs);
        var closed := body.st.(llvmCode := body.st.llvmCode + BodyLines(body.out.code) + Epilogue(id, ty.out, body.out.value));
        Gen(None, PopCtx(closed))
  }

  /**
   * The value a global is initialised with. When the initialiser is a sequence of one
   * unary operation on a literal, the literal is folded: `"-"` before an Int literal,
   * the negation of a Bool literal.
   */
  function GlobalValue(e: Node, r: Lowered): (v: Option<string>)
    ensures r.value.Some? ==> v.Some?
    ensures v != r.value ==> r.code.Some? && e.Exprs? && |e.items| == 1 && e.items[0].Unary?
  {
    if r.code.Some? && e.Exprs? && |e.items| == 1 && e.items[0].Unary? then
      match e.items[0].operand
      case IntLit(_, v) => Some("-" + NatToString(v))
      case BoolLit(_, b) => Some(if b then "false" else "true")
      case _ => r.value
    else r.value
  }

  /** One variable declaration: `@x = global ty value`. */
  function EmitGlobal(st: GenState, p: Program, d: Node): (r: Emit)
    requires st.frames != [] && d.VarDecl?
    ensures Grows(st, r.st) && |r.st.frames| == |st.frames|
  {
    match LookupCtx(st.frames, d.id)
    case None => Gen(Some(NullDereference("aguda.codegen.datastructures.Ctx.getReg()", "variableCtx")), st)
    case Some(vc) =>
      var e := GenExpr(st, None, d.exprs);
      var ty := ConvertTypeToLlvm(e.st, vc.ty, ProgramSite(p));
      Gen(None, ty.st.(llvmCode := ty.st.llvmCode + J(vc.reg) + " = global " + J(ty.out) + " " + J(GlobalValue(d.exprs, e.out)) + "\n"))
  }

  /** The code of one declaration: a function, a variable, or nothing. */
  function EmitDeclaration(st: GenState, p: Program, d: Node): (r: Emit)
    requires st.frames != []
    ensures Grows(st, r.st) && (r.out.None? ==> |r.st.frames| == |st.frames|)
  {
    if d.FunDecl? then EmitFunction(st, p, d)
    else if d.VarDecl? then EmitGlobal(st, p, d)
    else Gen(None, st)
  }

  /** The loop of `generate` over the declarations, from declaration `i` on. */
  function EmitFrom(st: GenState, p: Program, i: nat): (r: Emit)
    requires st.frames != [] && i <= |p.declarations|
    ensures Grows(st, r.st) && (r.out.None? ==> |r.st.frames| == |st.frames|)
    decreases |p.declarations| - i
  {
    if i == |p.declarations| then Gen(None, st)
    else
      var e := EmitDeclaration(st, p, p.declarations[i]);
      if e.out.Some? then e else EmitFrom(e.st, p, i + 1)
  }

  /** `new CodeGenerator(maxErrors).generate(p)`: the final state, or the exception raised. */
  function Generate(p: Program, maxErrors: int): (r: Emit)
    ensures r.out.None? ==> |r.st.frames| == 1
  {
    EmitFrom(DeclareFrom(Initial(maxErrors), p.declarations, 0), p, 0)
  }

  /** What `generate` returns: the helper definitions, then the module text. */
  function Output(st: GenState): (r: string)
    ensures StartsWith(r, st.helperFunctions) && EndsWith(r, st.llvmCode)
  {
    st.helperFunctions + st.llvmCode
  }
}
