/**
 * The `CodeGenerator` class itself: the same fields, updated in place, with one method
 * per Java method. `GenerateExpr` and `GenerateCondExpr` hold nothing but a reference to
 * the generator they work for, so their methods are methods of this class too. Each
 * method is proved to return, and to leave the object in, what the corresponding
 * function of module `Lowering` or `Emission` computes.
 */
module Generator {
  import opened Wrappers
  import opened Text
  import opened Types
  import opened Ast
  import opened Java
  import opened Ir
  import opened Lowering
  import Emission

  /**
   * The number of nodes in a tree. The `!` chain of `generateExpr` walks down to an
   * operand several levels below the node, which only a numeric measure can follow.
   */
  function Size(n: Node): nat
    decreases n, 1
  {
    1 +
    match n
    case VarDecl(_, _, t, e) => Size(t) + Size(e)
    case FunDecl(_, l, t, e) => SizeAll(l.ids) + Size(t) + Size(e)
    case Exprs(_, items, _) => SizeAll(items)
    case Let(_, _, t, b) => Size(t) + Size(b)
    case SetExpr(_, l, r) => Size(l) + Size(r)
    case If(_, c, t, e) => Size(c) + Size(t) + (match e case Some(x) => Size(x) case None => 0)
    case While(_, c, b) => Size(c) + Size(b)
    case Call(_, _, a) => Size(a)
    case Binary(_, _, l, r) => Size(l) + Size(r)
    case Unary(_, _, e) => Size(e)
    case ArrayAccess(_, a, idx) => Size(a) + SizeAll(idx)
    case Paren(_, e) => Size(e)
    case ArrayType(_, b, _) => Size(b)
    case FunctionType(_, p, r) => Size(p) + Size(r)
    case TypeList(_, ts) => SizeAll(ts)
    case _ => 0
  }

  function SizeAll(ns: seq<Node>): nat
    decreases ns, 0
  {
    if ns == [] then 0 else Size(ns[0]) + SizeAll(ns[1..])
  }

  /**
   * The second component of the measure of the walks: a value-level `&&` or `||` is
   * lowered through the condition walk on the same node.
   */
  function Rank(n: Node): nat {
    if IsLogical(n) then 7 else 2
  }

  lemma {:induction false} SizeAllAt(ns: seq<Node>, k: nat)
    requires k < |ns|
    ensures Size(ns[k]) <= SizeAll(ns)
  {
    if k > 0 {
      SizeAllAt(ns[1..], k - 1);
    }
  }

  /** The body's instructions, split at `;`: one trimmed, non-empty line each. */
  method BodyText(code: Option<Code>) returns (text: string)
    ensures text == Emission.BodyLines(code)
  {
    text := "";
    if code.Some? {
      var rendered := Render(code.value);
      if !IsBlank(rendered) {
        text := InstructionText(JavaSplit(rendered, ';'));
      }
    }
  }

  method InstructionText(parts: seq<string>) returns (text: string)
    ensures text == Emission.InstructionLines(parts)
  {
    text := "";
    var i := 0;
    while i < |parts|
      invariant 0 <= i <= |parts|
      invariant text == Emission.InstructionLines(parts[..i])
    {
      Emission.InstructionLinesSnoc(parts, i);
      text := text + Emission.InstructionLine(parts[i]);
      i := i + 1;
    }
    assert parts[..i] == parts;
  }

  /** The initial value of a global, with a negated literal folded. */
  method FoldedValue(e: Node, r: Lowered) returns (value: Option<string>)
    ensures value == Emission.GlobalValue(e, r)
  {
    value := r.value;
    if r.code.Some? && e.Exprs? && |e.items| == 1 && e.items[0].Unary? {
      var operand := e.items[0].operand;
      if operand.IntLit? {
        value := Some("-" + NatToString(operand.value));
      } else if operand.BoolLit? {
        value := Some(if operand.bval then "false" else "true");
      }
    }
  }

  class CodeGenerator {
    var llvmCode: string
    var helperFunctions: string
    /** The reports stored in `errorMessage`, one per message line. */
    var errors: seq<Site>
    var tempCounter: int
    var labelCounter: int
    /** The `ctx` deque, innermost frame first. */
    var ctx: seq<Frame>
    var powFunctionDefined: bool
    var maxErrors: int
    var reportedErrorLocations: set<Location>

    function State(): GenState
      reads this
    {
      GenState(llvmCode, helperFunctions, errors, tempCounter, labelCounter, ctx,
               powFunctionDefined, maxErrors, reportedErrorLocations)
    }

    constructor (maxErrors: int)
      ensures State() == Initial(maxErrors)
    {
      llvmCode := "";
      helperFunctions := "";
      errors := [];
      tempCounter := 1;
      labelCounter := 1;
      ctx := [map[]];
      powFunctionDefined := false;
      this.maxErrors := maxErrors;
      reportedErrorLocations := {};
    }

    // -------------------------------------------------------------------------------
    // The scope stack.

    method PushCtx()
      modifies this
      ensures State() == Lowering.PushCtx(old(State()))
    {
      ctx := [map[]] + ctx;
    }

    method PopCtx()
      requires ctx != []
      modifies this
      ensures State() == Lowering.PopCtx(old(State()))
    {
      ctx := ctx[1..];
    }

    method AddToCtx(name: string, b: Binding)
      requires ctx != []
      modifies this
      ensures State() == Lowering.AddToCtx(old(State()), name, b)
    {
      ctx := [ctx[0][name := b]] + ctx[1..];
    }

    /** The frames are searched innermost first; the first one that has the name wins. */
    method LookupCtx(name: string) returns (b: Option<Binding>)
      ensures b == Lowering.LookupCtx(ctx, name)
    {
      var i := 0;
      while i < |ctx|
        invariant 0 <= i <= |ctx|
        invariant Lowering.LookupCtx(ctx, name) == Lowering.LookupCtx(ctx[i..], name)
      {
        if name in ctx[i] {
          return Some(ctx[i][name]);
        }
        assert ctx[i..][1..] == ctx[i + 1..];
        i := i + 1;
      }
      return None;
    }

    // -------------------------------------------------------------------------------
    // Fresh names, errors, types and helper definitions.

    method GetNextRegister() returns (r: string)
      modifies this
      ensures Gen(r, State()) == NextRegister(old(State()))
    {
      r := "%v" + IntToString(tempCounter);
      tempCounter := tempCounter + 1;
    }

    method GetNextLabel(name: string) returns (r: string)
      modifies this
      ensures Gen(r, State()) == NextLabel(old(State()), name)
    {
      r := name + IntToString(labelCounter);
      labelCounter := labelCounter + 1;
    }

    method AddErrorMessage(s: Site)
      modifies this
      ensures State() == AddError(old(State()), s)
    {
      if maxErrors > 0 {
        var key := Located(s);
        if key.Some? && key.value in reportedErrorLocations {
          return;
        }
        if key.Some? {
          reportedErrorLocations := reportedErrorLocations + {key.value};
        }
        errors := errors + [s];
        maxErrors := maxErrors - 1;
      }
    }

    method ConvertAstToType(n: Node) returns (t: Option<Type>)
      modifies this
      ensures Gen(t, State()) == Lowering.ConvertAstToType(old(State()), n)
    {
      if n.BasicType? {
        t := BasicTypeNamed(n.typeName);
        if t.None? {
          AddErrorMessage(NodeSite(n));
        }
      } else if n.FunctionType? && n.returnType.BasicType? {
        t := BasicTypeNamed(n.returnType.typeName);
        if t.None? {
          AddErrorMessage(NodeSite(n));
        }
      } else {
        AddErrorMessage(NodeSite(n));
        t := None;
      }
    }

    method ConvertAgudaTypeToLlvm(t: Option<Type>, s: Site) returns (name: Option<string>)
      modifies this
      ensures Gen(name, State()) == ConvertTypeToLlvm(old(State()), t, s)
    {
      match t
      case Some(TInt) => name := Some("i32");
      case Some(TBool) => name := Some("i1");
      case Some(TUnit) => name := Some("i1");
      case _ =>
        AddErrorMessage(s);
        name := None;
    }

    method DefinePowFunction()
      modifies this
      ensures State() == Lowering.DefinePowFunction(old(State()))
    {
      if !powFunctionDefined {
        helperFunctions := helperFunctions + PowiHelper;
        powFunctionDefined := true;
      }
    }

    method DefinePrintfFormat(content: string, ty: string, name: string)
      modifies this
      ensures State() == Lowering.DefinePrintfFormat(old(State()), content, ty, name)
    {
      if !Contains(helperFunctions, name) {
        helperFunctions := helperFunctions + FormatConstant(content, ty, name);
      }
    }

    /** The `@printf` declaration at the end of a `print` call. */
    method DeclarePrintf()
      modifies this
      ensures State() == Lowering.DeclarePrintf(old(State()))
    {
      if !Contains(helperFunctions, "@printf") {
        helperFunctions := helperFunctions + PrintfDeclaration;
      }
    }

    /** `getErrorMessage`; the printed program is a parameter (see `ErrorText`). */
    function GetErrorMessage(programText: string): string
      reads this
    {
      ErrorMessage(errors, programText)
    }

    // -------------------------------------------------------------------------------
    // `generate` and its helpers.

    /** `generate`: the helper definitions and the module text, or the exception thrown. */
    method Generate(p: Program) returns (r: Result<string, Exception>)
      requires ctx != []
      modifies this
      ensures var e := Emission.EmitFrom(Emission.DeclareFrom(old(State()), p.declarations, 0), p, 0);
              State() == e.st
              && r == (if e.out.Some? then Failure(e.out.value) else Success(Emission.Output(e.st)))
    {
      BuildInitialContext(p);
      ghost var declared := State();
      var i := 0;
      while i < |p.declarations|
        invariant 0 <= i <= |p.declarations| && ctx != []
        invariant Emission.EmitFrom(declared, p, 0) == Emission.EmitFrom(State(), p, i)
      {
        var thrown := EmitDeclaration(p, p.declarations[i]);
        if thrown.Some? {
          return Failure(thrown.value);
        }
        i := i + 1;
      }
      return Success(helperFunctions + llvmCode);
    }

    /** `buildInitialContext`: every function and variable declaration into the global frame. */
    method BuildInitialContext(p: Program)
      requires ctx != []
      modifies this
      ensures State() == Emission.DeclareFrom(old(State()), p.declarations, 0)
    {
      var i := 0;
      while i < |p.declarations|
        invariant 0 <= i <= |p.declarations| && ctx != []
        invariant Emission.DeclareFrom(old(State()), p.declarations, 0) == Emission.DeclareFrom(State(), p.declarations, i)
      {
        Declare(p.declarations[i]);
        i := i + 1;
      }
    }

    method Declare(d: Node)
      requires ctx != []
      modifies this
      ensures State() == Emission.Declare(old(State()), d)
    {
      if d.FunDecl? {
        var t := ConvertAstToType(d.functionType);
        AddToCtx(d.idList.id, Binding(t, Some("@" + Sanitize(d.idList.id)), None, true, None));
      } else if d.VarDecl? {
        var t := ConvertAstToType(d.typeElem);
        var ptr := "%ptr_" + Sanitize(d.id) + IntToString(tempCounter);
        tempCounter := tempCounter + 1;
        AddToCtx(d.id, Binding(t, Some("@" + d.id), Some(ptr), false, None));
      }
    }

    /** `addArgumentsToCtx`: one binding and one `type %name` per identifier parameter. */
    method AddArgumentsToCtx(ids: seq<Node>, types: Option<seq<Node>>, functionName: string, s: Site)
      returns (thrown: Option<Exception>)
      requires ctx != []
      modifies this
      ensures Gen(thrown, State()) == Emission.AddArguments(old(State()), ids, types, functionName, s)
    {
      if types.None? {
        AddErrorMessage(s);
        return None;
      }
      var ts := types.value;
      var wildcards := 0;
      var i := 0;
      while i < |ids|
        invariant 0 <= i <= |ids| && ctx != []
        invariant Emission.AddArguments(old(State()), ids, types, functionName, s)
               == Emission.AddArgumentsFrom(State(), ids, ts, functionName, s, i, wildcards)
      {
        if i >= |ts| {
          return Some(IndexOutOfBoundsException(i, |ts|));
        }
        if ids[i].Identifier? {
          wildcards := AddArgument(ids, ts, functionName, s, i, wildcards);
        }
        i := i + 1;
      }
      return None;
    }

    method AddArgument(ids: seq<Node>, ts: seq<Node>, functionName: string, s: Site, i: nat, wildcards: nat)
      returns (next: nat)
      requires ctx != [] && i < |ids| && i < |ts| && ids[i].Identifier?
      modifies this
      ensures State() == Emission.BindArgument(old(State()), ids, ts, functionName, s, i, wildcards)
      ensures next == if ids[i].name == "_" then wildcards + 1 else wildcards
    {
      var t := ConvertAstToType(ts[i]);
      var ty := ConvertAgudaTypeToLlvm(t, s);
      var id := Emission.ParameterName(ids[i].name, wildcards);
      next := if ids[i].name == "_" then wildcards + 1 else wildcards;
      var ptr := "%ptr_" + Sanitize(id) + IntToString(tempCounter);
      tempCounter := tempCounter + 1;
      AddToCtx(id, Binding(t, Some("%" + id), Some(ptr), false, Some(functionName)));
      llvmCode := llvmCode + Emission.ParameterText(ty, id, i == |ids| - 1);
    }

    /** The `alloca` and `store` of every identifier parameter, after the header. */
    method EmitParameterSlots(ids: seq<Node>, s: Site)
      modifies this
      ensures State() == Emission.ParameterSlotsFrom(old(State()), ids, s, 0, 0)
    {
      var wildcards := 0;
      var i := 0;
      while i < |ids|
        invariant 0 <= i <= |ids|
        invariant Emission.ParameterSlotsFrom(old(State()), ids, s, 0, 0)
               == Emission.ParameterSlotsFrom(State(), ids, s, i, wildcards)
      {
        if ids[i].Identifier? {
          var name := Emission.ParameterName(ids[i].name, wildcards);
          wildcards := if ids[i].name == "_" then wildcards + 1 else wildcards;
          var b := LookupCtx(name);
          var ty := ConvertAgudaTypeToLlvm(if b.Some? then b.value.ty else None, s);
          var reg := if b.Some? then b.value.reg else None;
          var ptr := if b.Some? then b.value.ptr else None;
          var lines := "\t" + J(ptr) + " = alloca " + J(ty) + "\n"
            + "\tstore " + J(ty) + " " + J(reg) + ", " + J(ty) + "* " + J(ptr) + "\n";
          assert lines == Emission.SlotLines(b);
          llvmCode := llvmCode + lines;
        }
        i := i + 1;
      }
    }

    /** One function or variable declaration; anything else emits nothing. */
    method EmitDeclaration(p: Program, d: Node) returns (thrown: Option<Exception>)
      requires ctx != []
      modifies this
      ensures Gen(thrown, State()) == Emission.EmitDeclaration(old(State()), p, d)
    {
      thrown := None;
      if d.FunDecl? {
        thrown := EmitFunction(p, d);
      } else if d.VarDecl? {
        thrown := EmitGlobal(p, d);
      }
    }

    /** One function declaration: `define`, parameters, slots, body and `ret`. */
    method EmitFunction(p: Program, d: Node) returns (thrown: Option<Exception>)
      requires ctx != [] && d.FunDecl?
      modifies this
      ensures Gen(thrown, State()) == Emission.EmitFunction(old(State()), p, d)
    {
      var id := d.idList.id;
      var functionCtx := LookupCtx(id);
      if functionCtx.None? {
        return Some(NullDereference("aguda.codegen.datastructures.Ctx.getReg()", "functionCtx"));
      }
      var typeText := ConvertAgudaTypeToLlvm(functionCtx.value.ty, ProgramSite(p));
      llvmCode := llvmCode + "\ndefine " + J(typeText) + " " + J(functionCtx.value.reg) + "(";
      PushCtx();
      thrown := AddArgumentsToCtx(d.idList.ids, Emission.ParameterTypes(d.functionType), id, ProgramSite(p));
      if thrown.Some? {
        return;
      }
      llvmCode := llvmCode + ") {\n" + "entry:\n";
      EmitParameterSlots(d.idList.ids, ProgramSite(p));
      var body := GenerateExpr(Some("entry"), d.exprs);
      var lines := BodyText(body.code);
      llvmCode := llvmCode + lines + Emission.Epilogue(id, typeText, body.value);
      PopCtx();
    }

    /** One variable declaration: `@x = global type value`. */
    method EmitGlobal(p: Program, d: Node) returns (thrown: Option<Exception>)
      requires ctx != [] && d.VarDecl?
      modifies this
      ensures Gen(thrown, State()) == Emission.EmitGlobal(old(State()), p, d)
    {
      var variableCtx := LookupCtx(d.id);
      if variableCtx.None? {
        return Some(NullDereference("aguda.codegen.datastructures.Ctx.getReg()", "variableCtx"));
      }
      var e := GenerateExpr(None, d.exprs);
      var typeText := ConvertAgudaTypeToLlvm(variableCtx.value.ty, ProgramSite(p));
      var value := FoldedValue(d.exprs, e);
      llvmCode := llvmCode + J(variableCtx.value.reg) + " = global " + J(typeText) + " " + J(value) + "\n";
      return None;
    }

    // -------------------------------------------------------------------------------
    // `GenerateExpr.generateExpr`.

    method GenerateExpr(entry: Option<string>, n: Node) returns (r: Lowered)
      requires ctx != []
      modifies this
      ensures Gen(r, State()) == GenExpr(old(State()), entry, n)
      decreases Size(n), Rank(n)
    {
      match n
      case Identifier(_, _) => r := GenerateIdentifier(entry, n);
      case Unary(_, _, _) => r := GenerateUnary(entry, n);
      case Binary(_, op, _, _) =>
        if op == "&&" || op == "||" {
          r := GenerateLogical(entry, n);
        } else {
          r := GenerateBinary(entry, n);
        }
      case Exprs(_, _, _) => r := GenerateSequence(entry, n);
      case Let(_, _, _, _) => r := GenerateLet(entry, n);
      case SetExpr(_, _, _) => r := GenerateSet(entry, n);
      case Paren(_, _) => r := GenerateParen(entry, n);
      case Call(_, id, _) =>
        if id == "print" {
          r := GeneratePrint(entry, n);
        } else {
          r := GenerateUserCall(entry, n);
        }
      case If(_, _, _, _) => r := GenerateIf(entry, n);
      case While(_, _, _) => r := GenerateWhile(entry, n);
      case _ => r := GenerateLeaf(entry, n);
    }

    /** The nodes lowered without lowering any child: literals, and the unsupported ones. */
    method GenerateLeaf(entry: Option<string>, n: Node) returns (r: Lowered)
      requires ctx != []
      requires !n.Identifier? && !n.Unary? && !n.Binary? && !n.Exprs? && !n.Let? && !n.SetExpr?
      requires !n.Paren? && !n.Call? && !n.If? && !n.While?
      modifies this
      ensures Gen(r, State()) == GenExpr(old(State()), entry, n)
    {
      match n
      case IntLit(_, v) => r := Lowered(None, Some(NatToString(v)), Some(TInt), entry);
      case BoolLit(_, b) => r := Lowered(None, Some(if b then "true" else "false"), Some(TBool), entry);
      case NullLit(_) => r := Lowered(None, Some("1"), Some(TUnit), entry);
      case StringLit(_, _) =>
        AddErrorMessage(NodeSite(n));
        r := Nothing;
      case ArrayType(_, _, _) =>
        AddErrorMessage(NodeSite(n));
        r := Nothing;
      case _ => r := Nothing;
    }

    /** A parenthesised expression, lowered in a fresh frame. */
    method GenerateParen(entry: Option<string>, n: Node) returns (r: Lowered)
      requires ctx != [] && n.Paren?
      modifies this
      ensures Gen(r, State()) == GenExpr(old(State()), entry, n)
      decreases Size(n), 0
    {
      PushCtx();
      r := GenerateExpr(entry, n.inner);
      PopCtx();
    }

    method GenerateIdentifier(entry: Option<string>, n: Node) returns (r: Lowered)
      requires ctx != []
      requires n.Identifier?
      modifies this
      ensures Gen(r, State()) == GenExpr(old(State()), entry, n)
    {
      var found := LookupCtx(n.name);
      var ty := ConvertAgudaTypeToLlvm(if found.Some? then found.value.ty else None, NodeSite(n));
      if found.None? {
        return Lowered(Some([]), None, None, entry);
      }
      var v := found.value;
      var reg := GetNextRegister();
      if v.ty == Some(TUnit) {
        r := Lowered(Some([]), v.reg, v.ty, entry);
      } else if v.ptr.Some? && v.reg.Some? && !StartsWith(v.reg.value, "@") {
        r := Lowered(Some([Tab, Load(reg, ty, v.ptr), Nl]), Some(reg), v.ty, entry);
      } else if v.reg.Some? && StartsWith(v.reg.value, "@") {
        r := Lowered(Some([Tab, Load(reg, ty, v.reg), Nl]), Some(reg), v.ty, entry);
      } else {
        r := Lowered(Some([]), v.reg, v.ty, entry);
      }
    }

    /**
     * `-` and `!`. For `!` the operand is lowered once and its result dropped, then the
     * chain of `!` is counted and the innermost operand lowered again.
     */
    method GenerateUnary(entry: Option<string>, n: Node) returns (r: Lowered)
      requires ctx != [] && n.Unary?
      modifies this
      ensures Gen(r, State()) == GenExpr(old(State()), entry, n)
      decreases Size(n), 0
    {
      var a := GenerateExpr(entry, n.operand);
      if n.op == "-" {
        r := Negate(a, n);
      } else if n.op == "!" {
        var negations := 0;
        var current := n;
        while current.Unary? && current.op == "!"
          invariant current == n || Size(current) < Size(n)
          invariant GenNegations(State(), entry, n.operand, 1, n) == GenNegations(State(), entry, current, negations, n)
          decreases Size(current)
        {
          negations := negations + 1;
          current := current.operand;
        }
        var inner := GenerateExpr(entry, current);
        if negations % 2 == 1 {
          r := Invert(inner, n);
        } else {
          r := inner;
        }
      } else {
        r := Nothing;
      }
    }

    method Negate(a: Lowered, n: Node) returns (r: Lowered)
      modifies this
      ensures Gen(r, State()) == Negation(Gen(a, old(State())), n)
    {
      var ty := ConvertAgudaTypeToLlvm(a.ty, NodeSite(n));
      var result := GetNextRegister();
      r := Lowered(Some(Then(a.code, [Semi]) + [Sub0(result, ty, a.value)]), Some(result), a.ty, a.exit);
    }

    method Invert(a: Lowered, n: Node) returns (r: Lowered)
      modifies this
      ensures Gen(r, State()) == Inversion(Gen(a, old(State())), n)
    {
      var ty := ConvertAgudaTypeToLlvm(a.ty, NodeSite(n));
      var result := GetNextRegister();
      r := Lowered(Some(Then(a.code, [Semi, Nl]) + [XorOne(result, ty, a.value)]), Some(result), a.ty, a.exit);
    }

    method GenerateLogical(entry: Option<string>, n: Node) returns (r: Lowered)
      requires ctx != [] && IsLogical(n)
      modifies this
      ensures Gen(r, State()) == GenExpr(old(State()), entry, n)
      decreases Size(n), 6
    {
      var tt := GetNextLabel("true");
      var ff := GetNextLabel("false");
      var join := GetNextLabel("join");
      var c := GenerateCondExpr(entry, tt, ff, n);
      var result := GetNextRegister();
      r := Lowered(Some(c.code + [Nl, Head(tt), Nl, Tab, Br(join), Nl, Nl, Head(ff), Nl, Tab, Br(join), Nl,
                                  Nl, Head(join), Nl, Tab, BoolPhi(result, tt, ff), Nl]),
                   Some(result), Some(TBool), Some(join));
    }

    method GenerateBinary(entry: Option<string>, n: Node) returns (r: Lowered)
      requires ctx != [] && n.Binary? && !IsLogical(n)
      modifies this
      ensures Gen(r, State()) == GenExpr(old(State()), entry, n)
      decreases Size(n), 0
    {
      var left := GenerateExpr(entry, n.left);
      var right := GenerateExpr(entry, n.right);
      var code := Then(left.code, [Semi]) + Then(right.code, [Semi]);
      var ty := ConvertAgudaTypeToLlvm(left.ty, NodeSite(n));
      var instr: Piece;
      if n.op == "^" {
        DefinePowFunction();
        var result := GetNextRegister();
        instr := PowCall(result, ty, left.value, right.value);
      } else {
        var result := GetNextRegister();
        instr := BinInstr(result, ConvertOperator(n.op), ty, left.value, right.value);
      }
      var resultType := BinaryResultType(n.op);
      if resultType.None? {
        AddErrorMessage(NodeSite(n));
      }
      r := Lowered(Some(code + [instr, Nl]), Some(instr.reg), resultType, entry);
    }

    method GenerateSequence(entry: Option<string>, n: Node) returns (r: Lowered)
      requires ctx != [] && n.Exprs?
      modifies this
      ensures Gen(r, State()) == GenExpr(old(State()), entry, n)
      decreases Size(n), 0
    {
      var at := entry;
      var code: Code := [];
      var value: Option<string> := None;
      var ty: Option<Type> := None;
      var i := 0;
      while i < |n.items|
        invariant 0 <= i <= |n.items| && ctx != []
        invariant GenSequence(old(State()), entry, n, 0, [], None, None) == GenSequence(State(), at, n, i, code, value, ty)
      {
        SizeAllAt(n.items, i);
        var e := GenerateExpr(at, n.items[i]);
        at := e.exit;
        if i == |n.items| - 1 {
          code := code + OrEmpty(e.code);
          value := e.value;
          ty := e.ty;
        } else {
          code := code + Then(e.code, [Semi]);
        }
        i := i + 1;
      }
      r := Lowered(Some(code), value, ty, at);
    }

    method GenerateLet(entry: Option<string>, n: Node) returns (r: Lowered)
      requires ctx != [] && n.Let?
      modifies this
      ensures Gen(r, State()) == GenExpr(old(State()), entry, n)
      decreases Size(n), 0
    {
      PushCtx();
      var v := GenerateExpr(entry, n.block);
      PopCtx();
      r := BindLet(v, n);
    }

    /** The slot of a `let`, bound in the enclosing frame once the body is lowered. */
    method BindLet(v: Lowered, n: Node) returns (r: Lowered)
      requires ctx != [] && n.Let?
      modifies this
      ensures Gen(r, State()) == LetBinding(v, old(State()), n)
    {
      var declared := ConvertAstToType(n.letType);
      var ty := ConvertAgudaTypeToLlvm(declared, NodeSite(n));
      var slot := "%ptr_" + Sanitize(n.id) + IntToString(tempCounter);
      tempCounter := tempCounter + 1;
      var name := "%" + Sanitize(n.id) + IntToString(tempCounter);
      tempCounter := tempCounter + 1;
      var valueToStore := v.value.GetOr("1");
      if v.ty.Some? && v.ty != declared {
        if declared == Some(TUnit) && v.ty.value in {TInt, TBool} {
          valueToStore := "1";
        } else {
          AddErrorMessage(NodeSite(n));
        }
      }
      AddToCtx(n.id, Binding(declared, Some(name), Some(slot), false, None));
      r := Lowered(Some(OrEmpty(v.code) + [Tab, Alloca(slot, ty), Nl,
                                           Tab, Store(ty, Some(valueToStore), Some(slot)), Nl,
                                           Tab, Load(name, ty, Some(slot)), Nl]),
                   Some(name), declared, v.exit);
    }

    method GenerateSet(entry: Option<string>, n: Node) returns (r: Lowered)
      requires ctx != [] && n.SetExpr?
      modifies this
      ensures Gen(r, State()) == GenExpr(old(State()), entry, n)
      decreases Size(n), 0
    {
      PushCtx();
      var v := GenerateExpr(entry, n.rhs);
      PopCtx();
      var found: Option<Binding> := None;
      if n.lhs.Identifier? {
        found := LookupCtx(n.lhs.name);
      }
      var ptr := if found.Some? then found.value.ptr else None;
      var ty := ConvertAgudaTypeToLlvm(if found.Some? then found.value.ty else None, NodeSite(n));
      r := Lowered(Some(OrEmpty(v.code) + [Nl, Tab, Store(ty, v.value, ptr), Nl]), None, Some(TUnit), v.exit);
    }

    /** The arguments of a call, each lowered at the label of the call. */
    method GenerateArguments(entry: Option<string>, args: Node) returns (done: seq<Lowered>)
      requires ctx != []
      modifies this
      ensures Gen(done, State()) == GenArguments(old(State()), entry, args, 0, [])
      decreases Size(args), 8
    {
      if !args.Exprs? {
        ghost var start := State();
        ghost var g := GenExpr(start, entry, args);
        assert ArgCount(args) == 1 && ([] + [g.out]) == [g.out];
        assert GenArguments(start, entry, args, 0, []) == GenArguments(g.st, entry, args, 1, [g.out]);
        var a := GenerateExpr(entry, args);
        assert GenArguments(g.st, entry, args, 1, [g.out]) == Gen([g.out], g.st);
        return [a];
      }
      done := [];
      var i := 0;
      while i < |args.items|
        invariant 0 <= i <= |args.items| && ctx != []
        invariant GenArguments(old(State()), entry, args, 0, []) == GenArguments(State(), entry, args, i, done)
      {
        SizeAllAt(args.items, i);
        var a := GenerateExpr(entry, args.items[i]);
        done := done + [a];
        i := i + 1;
      }
    }

    method GeneratePrint(entry: Option<string>, n: Node) returns (r: Lowered)
      requires ctx != [] && n.Call? && n.id == "print"
      modifies this
      ensures Gen(r, State()) == GenExpr(old(State()), entry, n)
      decreases Size(n), 0
    {
      var args := GenerateArguments(entry, n.args);
      ghost var lowered := State();
      var code: Code := [];
      var i := 0;
      while i < |args|
        invariant 0 <= i <= |args|
        invariant PrintEach(lowered, n, args, 0, []) == PrintEach(State(), n, args, i, code)
      {
        var c := GeneratePrintArgument(n, args[i]);
        code := code + c;
        i := i + 1;
      }
      DeclarePrintf();
      r := Lowered(Some(code), Some(""), Some(TUnit), entry);
    }

    /** The code `print` emits for one argument, by its type. */
    method GeneratePrintArgument(n: Node, a: Lowered) returns (code: Code)
      modifies this
      ensures Gen(code, State()) == PrintArgument(old(State()), n, a)
    {
      code := Then(a.code, [Semi]);
      match a.ty
      case Some(TInt) =>
        DefinePrintfFormat("%d\\00", "[3 x i8]", "@.fmt.int");
        var gep := GetNextRegister();
        code := code + [Gep(gep, "[3 x i8]", "@.fmt.int"), Semi, PrintfInt(gep, a.value)];
      case Some(TBool) =>
        DefinePrintfFormat("true\\00", "[5 x i8]", "@.str.true");
        DefinePrintfFormat("false\\00", "[6 x i8]", "@.str.false");
        var cmp := GetNextRegister();
        var result := GetNextRegister();
        code := code + [IsTrue(cmp, a.value), Semi, SelectBoolText(result, cmp), Semi, PrintfText(result)];
      case Some(TUnit) =>
        DefinePrintfFormat("unit\\00", "[5 x i8]", "@.str.unit");
        var gep := GetNextRegister();
        code := code + [Gep(gep, "[3 x i8]", "@.str.unit"), Semi, PrintfText(gep)];
      case Some(TString) => AddErrorMessage(NodeSite(n));
      case _ =>
    }

    method GenerateUserCall(entry: Option<string>, n: Node) returns (r: Lowered)
      requires ctx != [] && n.Call? && n.id != "print"
      modifies this
      ensures Gen(r, State()) == GenExpr(old(State()), entry, n)
      decreases Size(n), 0
    {
      var args := GenerateArguments(entry, n.args);
      ghost var lowered := State();
      var code: Code := [];
      var texts: seq<string> := [];
      var i := 0;
      while i < |args|
        invariant 0 <= i <= |args|
        invariant PassEach(lowered, n, args, 0, [], []) == PassEach(State(), n, args, i, code, texts)
      {
        var ty := ConvertAgudaTypeToLlvm(args[i].ty, NodeSite(n));
        code := code + Then(args[i].code, [Semi]);
        texts := texts + [J(ty) + " " + J(args[i].value)];
        i := i + 1;
      }
      var found := LookupCtx(n.id);
      var returnType := if found.Some? then found.value.ty else Some(TUnit);
      var ty := ConvertAgudaTypeToLlvm(returnType, NodeSite(n));
      var result := GetNextRegister();
      r := Lowered(Some(code + [Invoke(result, ty, n.id, texts)]), Some(result), returnType, entry);
    }

    method GenerateIf(entry: Option<string>, n: Node) returns (r: Lowered)
      requires ctx != [] && n.If?
      modifies this
      ensures Gen(r, State()) == GenExpr(old(State()), entry, n)
      decreases Size(n), 0
    {
      var tt := GetNextLabel("true");
      var ff := GetNextLabel("false");
      var join := GetNextLabel("join");
      PushCtx();
      var c := GenerateCondExpr(entry, tt, ff, n.cond);
      PopCtx();
      PushCtx();
      var t := GenerateExpr(Some(tt), n.thenBranch);
      PopCtx();
      var thenTy := ConvertAgudaTypeToLlvm(t.ty, NodeSite(n));
      PushCtx();
      var e := Nothing;
      if n.elseBranch.Some? {
        e := GenerateExpr(Some(ff), n.elseBranch.value);
      }
      PopCtx();
      var result := GetNextRegister();
      var phi := Phi(result, thenTy, PhiValue(t.value), t.exit.GetOr(tt), PhiValue(e.value), e.exit.GetOr(ff));
      r := Lowered(Some(c.code + [Nl, Head(tt), Nl, Tab] + BranchCode(t.code, join)
                        + [Nl, Head(ff), Nl, Tab] + BranchCode(e.code, join)
                        + [Nl, Head(join), Nl, Tab, phi]),
                   Some(result), t.ty, Some(join));
    }

    method GenerateWhile(entry: Option<string>, n: Node) returns (r: Lowered)
      requires ctx != [] && n.While?
      modifies this
      ensures Gen(r, State()) == GenExpr(old(State()), entry, n)
      decreases Size(n), 0
    {
      var cond := GetNextLabel("while_cond");
      var body := GetNextLabel("while_body");
      var end := GetNextLabel("while_end");
      PushCtx();
      var c := GenerateCondExpr(Some(cond), body, end, n.cond);
      PopCtx();
      PushCtx();
      var b := GenerateExpr(Some(body), n.body);
      PopCtx();
      r := Lowered(Some([Br(cond), Nl, Head(cond), Nl] + c.code + [Head(body), Nl]
                        + OrNullText(b.code) + [Tab, Br(cond), Nl, Head(end), Nl]),
                   None, Some(TUnit), Some(end));
    }

    // -------------------------------------------------------------------------------
    // `GenerateCondExpr.generateCondExpr`.

    method GenerateCondExpr(entry: Option<string>, tt: string, ff: string, n: Node) returns (r: Branched)
      requires ctx != []
      modifies this
      ensures Gen(r, State()) == GenCond(old(State()), entry, tt, ff, n)
      decreases Size(n), 5
    {
      match n
      case BoolLit(_, _) => r := CondBool(entry, tt, ff, n);
      case Unary(_, _, _) => r := CondUnary(entry, tt, ff, n);
      case Binary(_, _, _, _) => r := CondBinary(entry, tt, ff, n);
      case Exprs(_, _, _) => r := CondSequence(entry, tt, ff, n);
      case Paren(_, _) => r := CondParen(entry, tt, ff, n);
      case _ => r := CondValue(entry, tt, ff, n);
    }

    /** A Bool literal: one jump, to `tt` or to `ff`. */
    method CondBool(entry: Option<string>, tt: string, ff: string, n: Node) returns (r: Branched)
      requires ctx != []
      requires n.BoolLit?
      ensures Gen(r, State()) == GenCond(State(), entry, tt, ff, n)
    {
      var target := if n.bval then tt else ff;
      r := Branched([Tab, Br(target), Nl], Some(target));
    }

    /** `!` swaps the two targets; any other unary operator is reported. */
    method CondUnary(entry: Option<string>, tt: string, ff: string, n: Node) returns (r: Branched)
      requires ctx != [] && n.Unary?
      modifies this
      ensures Gen(r, State()) == GenCond(old(State()), entry, tt, ff, n)
      decreases Size(n), 4
    {
      if n.op == "!" {
        r := GenerateCondExpr(entry, ff, tt, n.operand);
      } else {
        // reported in the unary case, then once more after the dispatch
        AddErrorMessage(NodeSite(n));
        AddErrorMessage(NodeSite(n));
        r := Branched([], entry);
      }
    }

    method CondParen(entry: Option<string>, tt: string, ff: string, n: Node) returns (r: Branched)
      requires ctx != [] && n.Paren?
      modifies this
      ensures Gen(r, State()) == GenCond(old(State()), entry, tt, ff, n)
      decreases Size(n), 4
    {
      r := GenerateCondExpr(entry, tt, ff, n.inner);
    }

    /** Any other node: its value, then a `br i1` on it. */
    method CondValue(entry: Option<string>, tt: string, ff: string, n: Node) returns (r: Branched)
      requires ctx != [] && !n.BoolLit? && !n.Unary? && !n.Binary? && !n.Exprs? && !n.Paren?
      modifies this
      ensures Gen(r, State()) == GenCond(old(State()), entry, tt, ff, n)
      decreases Size(n), 3
    {
      var v := GenerateExpr(entry, n);
      r := Branched(OrEmpty(v.code) + [Nl, Tab, CondBr(v.value, tt, ff), Nl], v.exit);
    }

    method CondBinary(entry: Option<string>, tt: string, ff: string, n: Node) returns (r: Branched)
      requires ctx != [] && n.Binary?
      modifies this
      ensures Gen(r, State()) == GenCond(old(State()), entry, tt, ff, n)
      decreases Size(n), 4
    {
      if n.op == "&&" || n.op == "||" {
        r := CondLogical(entry, tt, ff, n);
      } else if n.op in Comparisons {
        r := CondCompare(entry, tt, ff, n);
      } else {
        // reported in the binary case, then once more after the dispatch
        AddErrorMessage(NodeSite(n));
        AddErrorMessage(NodeSite(n));
        r := Branched([], entry);
      }
    }

    method CondLogical(entry: Option<string>, tt: string, ff: string, n: Node) returns (r: Branched)
      requires ctx != [] && IsLogical(n)
      modifies this
      ensures Gen(r, State()) == Lowering.CondLogical(old(State()), entry, tt, ff, n)
      decreases Size(n), 3
    {
      var isAnd := n.op == "&&";
      var l2 := GetNextLabel(if isAnd then "and" else "or");
      var r1: Branched;
      if isAnd {
        r1 := GenerateCondExpr(entry, l2, ff, n.left);
      } else {
        r1 := GenerateCondExpr(entry, tt, l2, n.left);
      }
      var r2 := GenerateCondExpr(Some(l2), tt, ff, n.right);
      r := Branched(r1.code + [Head(l2), Nl, Tab] + r2.code, r2.exit);
    }

    method CondCompare(entry: Option<string>, tt: string, ff: string, n: Node) returns (r: Branched)
      requires ctx != [] && n.Binary? && n.op in Comparisons
      modifies this
      ensures Gen(r, State()) == Lowering.CondCompare(old(State()), entry, tt, ff, n)
      decreases Size(n), 3
    {
      var left := GenerateExpr(entry, n.left);
      var right := GenerateExpr(left.exit, n.right);
      var ty := ConvertAgudaTypeToLlvm(left.ty, NodeSite(n));
      var tmp := GetNextRegister();
      r := Branched(OrEmpty(left.code) + OrEmpty(right.code)
                    + [Tab, Icmp(tmp, Predicate(n.op), ty, left.value, right.value), Nl,
                       Tab, CondBr(Some(tmp), tt, ff), Nl],
                    right.exit);
    }

    method CondSequence(entry: Option<string>, tt: string, ff: string, n: Node) returns (r: Branched)
      requires ctx != [] && n.Exprs?
      modifies this
      ensures Gen(r, State()) == GenCond(old(State()), entry, tt, ff, n)
      decreases Size(n), 3
    {
      var at := entry;
      var code: Code := [];
      var i := 0;
      while i < |n.items|
        invariant 0 <= i <= |n.items| && ctx != []
        invariant Lowering.CondSequence(old(State()), entry, tt, ff, n, 0, [])
               == Lowering.CondSequence(State(), at, tt, ff, n, i, code)
      {
        SizeAllAt(n.items, i);
        var e := GenerateCondExpr(at, tt, ff, n.items[i]);
        at := e.exit;
        code := code + e.code + (if i == |n.items| - 1 then [] else [Semi]);
        i := i + 1;
      }
      r := Branched(code, at);
    }
  }
}
