/**
 * Properties of `generate`: the initial context, the parameters of a function, and the
 * value a global is initialised with.
 */
module EmissionFacts {
  import opened Wrappers
  import opened Text
  import opened Types
  import opened Ast
  import opened Java
  import opened Lowering
  import opened Emission
  import Ir

  predicate IsDeclaration(d: Node) {
    d.FunDecl? || d.VarDecl?
  }

  function DeclarationName(d: Node): string
    requires IsDeclaration(d)
  {
    if d.FunDecl? then d.idList.id else d.id
  }

  /**
   * `buildInitialContext` for one declaration: a function is bound to `@` and its
   * sanitised name, flagged as a function; a variable to `@` and its name, with a
   * `%ptr_` slot numbered by the register counter.
   */
  lemma DeclareBinds(st: GenState, d: Node)
    requires st.frames != []
    ensures var r := Declare(st, d);
            && (d.FunDecl? ==>
                  LookupCtx(r.frames, d.idList.id)
                    == Some(Binding(ConvertAstToType(st, d.functionType).out, Some("@" + Sanitize(d.idList.id)), None, true, None)))
            && (d.VarDecl? ==>
                  var t := ConvertAstToType(st, d.typeElem);
                  LookupCtx(r.frames, d.id)
                    == Some(Binding(t.out, Some("@" + d.id), Some("%ptr_" + Sanitize(d.id) + IntToString(t.st.tempCounter)), false, None)))
            && (!IsDeclaration(d) ==> r == st)
  {
  }

  /** Binding more names keeps the names the global frame already has. */
  lemma DeclareKeeps(st: GenState, d: Node, x: string)
    requires st.frames != [] && x in st.frames[0]
    ensures x in Declare(st, d).frames[0]
  {
  }

  /**
   * After `buildInitialContext` from declaration `i` on, the global frame has every name
   * it had and the name of every later function and variable; no code has been written.
   */
  lemma {:induction false} DeclareFromBindsAll(st: GenState, decls: seq<Node>, i: nat)
    requires st.frames != [] && i <= |decls|
    ensures var r := DeclareFrom(st, decls, i);
            && r.llvmCode == st.llvmCode
            && (forall x :: x in st.frames[0] ==> x in r.frames[0])
            && (forall k :: i <= k < |decls| && IsDeclaration(decls[k]) ==> DeclarationName(decls[k]) in r.frames[0])
    decreases |decls| - i
  {
    if i < |decls| {
      var next := Declare(st, decls[i]);
      DeclareFromBindsAll(next, decls, i + 1);
      forall x | x in st.frames[0] ensures x in next.frames[0] {
        DeclareKeeps(st, decls[i], x);
      }
      if IsDeclaration(decls[i]) {
        DeclareBinds(st, decls[i]);
        var name := DeclarationName(decls[i]);
        assert name in next.frames[0] by {
          if name !in next.frames[0] {
            LookupNotInTop(next.frames, name);
          }
        }
      }
    }
  }

  /** A name found by `lookupCtx` in a one-frame stack is in that frame. */
  lemma LookupNotInTop(frames: seq<Frame>, name: string)
    requires |frames| == 1 && name !in frames[0]
    ensures LookupCtx(frames, name).None?
  {
    assert frames[1..] == [];
  }

  /**
   * `generate` fills the global frame with every top-level function and variable before
   * it emits any of them: when the first declaration is emitted, nothing has been
   * written and every name is bound.
   */
  lemma DeclaredBeforeEmitted(p: Program, maxErrors: int)
    ensures var g := DeclareFrom(Initial(maxErrors), p.declarations, 0);
            && Generate(p, maxErrors) == EmitFrom(g, p, 0)
            && g.llvmCode == "" && |g.frames| == 1
            && forall k :: 0 <= k < |p.declarations| && IsDeclaration(p.declarations[k])
                 ==> DeclarationName(p.declarations[k]) in g.frames[0]
  {
    DeclareFromBindsAll(Initial(maxErrors), p.declarations, 0);
  }

  /**
   * `addArgumentsToCtx` reads one parameter type per parameter: from parameter `i` on,
   * it throws `IndexOutOfBoundsException` for the first index that has no type, and
   * throws nothing when every remaining parameter has one.
   */
  lemma {:induction false} ArgumentsOutOfBounds(st: GenState, ids: seq<Node>, types: seq<Node>, functionName: string,
                                                 site: Site, i: nat, wild: nat)
    requires st.frames != [] && i <= |ids|
    ensures var r := AddArgumentsFrom(st, ids, types, functionName, site, i, wild);
            var first := if i < |types| then |types| else i;
            r.out == if first < |ids| then Some(IndexOutOfBoundsException(first, |types|)) else None
    decreases |ids| - i
  {
    if i < |ids| && i < |types| {
      var next := if !ids[i].Identifier? then wild else if ids[i].name == "_" then wild + 1 else wild;
      if !ids[i].Identifier? {
        ArgumentsOutOfBounds(st, ids, types, functionName, site, i + 1, wild);
      } else {
        var written := BindArgument(st, ids, types, functionName, site, i, wild);
        ArgumentsOutOfBounds(written, ids, types, functionName, site, i + 1, next);
      }
    }
  }

  /** The `k`-th wildcard parameter is bound as `__wild` + k, so different wildcards get different names. */
  lemma WildcardNames(k: nat, m: nat)
    ensures ParameterName("_", k) == "__wild" + NatToString(k)
    ensures k != m ==> ParameterName("_", k) != ParameterName("_", m)
  {
    if k != m && ParameterName("_", k) == ParameterName("_", m) {
      NameCounterInjective("__wild", k, "__wild", m);
    }
  }

  /** A function that is not in the context is a null dereference, and nothing is written. */
  lemma MissingFunction(st: GenState, p: Program, d: Node)
    requires st.frames != [] && d.FunDecl? && LookupCtx(st.frames, d.idList.id).None?
    ensures EmitFunction(st, p, d) == Gen(Some(NullDereference("aguda.codegen.datastructures.Ctx.getReg()", "functionCtx")), st)
  {
  }

  /** `main` returns `i1 1`; any other function its body's value, or `1` when there is none. */
  lemma Returns(id: string, ty: Option<string>, value: Option<string>)
    ensures id == "main" ==> Epilogue(id, ty, value) == "\tret i1 1\n}\n"
    ensures id != "main" && value.Some? && value.value != "" ==> Epilogue(id, ty, value) == "\tret " + J(ty) + " " + value.value + "\n}\n"
    ensures id != "main" && (value.None? || value == Some("")) ==> Epilogue(id, ty, value) == "\tret " + J(ty) + " 1\n}\n"
  {
  }

  /**
   * A global initialised with a single unary operation on a literal is folded: `"-"`
   * before an Int literal, the negation of a Bool literal; any other initialiser keeps
   * the lowered value.
   */
  lemma GlobalFolding(e: Node, r: Lowered)
    ensures r.code.Some? && e.Exprs? && |e.items| == 1 && e.items[0].Unary? && e.items[0].operand.IntLit?
            ==> GlobalValue(e, r) == Some("-" + NatToString(e.items[0].operand.value))
    ensures r.code.Some? && e.Exprs? && |e.items| == 1 && e.items[0].Unary? && e.items[0].operand.BoolLit?
            ==> GlobalValue(e, r) == Some(if e.items[0].operand.bval then "false" else "true")
    ensures !(r.code.Some? && e.Exprs? && |e.items| == 1 && e.items[0].Unary?
              && (e.items[0].operand.IntLit? || e.items[0].operand.BoolLit?))
            ==> GlobalValue(e, r) == r.value
  {
  }

  /** From the first parameter on: an exception exactly when there are fewer types than parameters. */
  lemma ParameterTypesMissing(st: GenState, ids: seq<Node>, types: seq<Node>, functionName: string, site: Site)
    requires st.frames != []
    ensures var r := AddArgumentsFrom(st, ids, types, functionName, site, 0, 0);
            r.out == if |types| < |ids| then Some(IndexOutOfBoundsException(|types|, |types|)) else None
  {
    ArgumentsOutOfBounds(st, ids, types, functionName, site, 0, 0);
  }

  /** The slot lines of every identifier parameter from `i` on, each by its binding in `frames`. */
  function Slots(frames: seq<Frame>, ids: seq<Node>, i: nat, wild: nat): string
    requires i <= |ids|
    decreases |ids| - i
  {
    if i == |ids| then ""
    else if !ids[i].Identifier? then Slots(frames, ids, i + 1, wild)
    else
      SlotLines(LookupCtx(frames, ParameterName(ids[i].name, wild)))
      + Slots(frames, ids, i + 1, if ids[i].name == "_" then wild + 1 else wild)
  }

  /**
   * The parameter slots: the code gains one `alloca` and one `store` per identifier
   * parameter, in order, and nothing for any other node; what it writes depends only
   * on the bindings, not on whether a type was reported, and no counter moves.
   */
  lemma {:induction false} ParameterSlotLines(st: GenState, ids: seq<Node>, site: Site, i: nat, wild: nat)
    requires i <= |ids|
    ensures var r := ParameterSlotsFrom(st, ids, site, i, wild);
            && r.llvmCode == st.llvmCode + Slots(st.frames, ids, i, wild)
            && r.tempCounter == st.tempCounter && r.labelCounter == st.labelCounter
    decreases |ids| - i
  {
    if i == |ids| {
      assert st.llvmCode + "" == st.llvmCode;
    } else if !ids[i].Identifier? {
      ParameterSlotLines(st, ids, site, i + 1, wild);
    } else {
      var w := if ids[i].name == "_" then wild + 1 else wild;
      var b := LookupCtx(st.frames, ParameterName(ids[i].name, wild));
      var ty := ConvertTypeToLlvm(st, if b.Some? then b.value.ty else None, site);
      var written := ty.st.(llvmCode := ty.st.llvmCode + SlotLines(b));
      ParameterSlotLines(written, ids, site, i + 1, w);
      assert st.llvmCode + SlotLines(b) + Slots(st.frames, ids, i + 1, w) == st.llvmCode + (SlotLines(b) + Slots(st.frames, ids, i + 1, w));
    }
  }

  // ---------------------------------------------------------------- parameter bindings

  /** How many of the parameters `i` to `k - 1` are identifiers. */
  function Identifiers(ids: seq<Node>, i: nat, k: nat): nat
    requires i <= k <= |ids|
    decreases k - i
  {
    if i == k then 0 else (if ids[i].Identifier? then 1 else 0) + Identifiers(ids, i + 1, k)
  }

  /** How many of the parameters `i` to `k - 1` are the wildcard `_`. */
  function Wildcards(ids: seq<Node>, i: nat, k: nat): nat
    requires i <= k <= |ids|
    decreases k - i
  {
    if i == k then 0 else (if ids[i].Identifier? && ids[i].name == "_" then 1 else 0) + Wildcards(ids, i + 1, k)
  }

  /** The name parameter `k` is bound under, when the walk starts at `i` with `wild` wildcards seen. */
  function BoundName(ids: seq<Node>, i: nat, wild: nat, k: nat): string
    requires i <= k < |ids| && ids[k].Identifier?
  {
    ParameterName(ids[k].name, wild + Wildcards(ids, i, k))
  }

  /** No later identifier parameter is bound under the name of parameter `k`. */
  predicate LastBound(ids: seq<Node>, i: nat, wild: nat, k: nat)
    requires i <= k < |ids| && ids[k].Identifier?
  {
    forall j :: k < j < |ids| && ids[j].Identifier? ==> BoundName(ids, i, wild, j) != BoundName(ids, i, wild, k)
  }

  /**
   * The binding of parameter `k`: its type, the register `%` + its name, a slot
   * `%ptr_` + its sanitised name + `counter`, not a function, inside `functionName`.
   */
  function ArgumentBinding(ids: seq<Node>, types: seq<Node>, functionName: string, i: nat, wild: nat, k: nat,
                           counter: int): Binding
    requires i <= k < |ids| && k < |types| && ids[k].Identifier?
  {
    var id := BoundName(ids, i, wild, k);
    Binding(AstType(types[k]), Some("%" + id), Some("%ptr_" + Sanitize(id) + IntToString(counter)), false, Some(functionName))
  }

  /** The header text of the identifier parameters from `i` on: `type %name`, `, ` after all but the last index. */
  function Header(ids: seq<Node>, types: seq<Node>, i: nat, wild: nat): string
    requires i <= |ids| <= |types|
    decreases |ids| - i
  {
    if i == |ids| then ""
    else if !ids[i].Identifier? then Header(ids, types, i + 1, wild)
    else
      ParameterText(LlvmTypeName(AstType(types[i])), ParameterName(ids[i].name, wild), i == |ids| - 1)
      + Header(ids, types, i + 1, if ids[i].name == "_" then wild + 1 else wild)
  }

  /** Starting one parameter later names and numbers every later parameter the same. */
  lemma Shift(ids: seq<Node>, i: nat, wild: nat, k: nat)
    requires i < k < |ids|
    ensures var next := if ids[i].Identifier? && ids[i].name == "_" then wild + 1 else wild;
            && (ids[k].Identifier? ==> BoundName(ids, i + 1, next, k) == BoundName(ids, i, wild, k))
            && Identifiers(ids, i, k) == (if ids[i].Identifier? then 1 else 0) + Identifiers(ids, i + 1, k)
  {
  }

  /**
   * One identifier parameter: the top frame binds its name to `ArgumentBinding`, slot
   * numbered by the register counter, which moves on by one; the header gains its text.
   */
  lemma BindArgumentShape(st: GenState, ids: seq<Node>, types: seq<Node>, functionName: string, site: Site,
                          i: nat, wild: nat)
    requires st.frames != [] && i < |ids| && i < |types| && ids[i].Identifier?
    ensures var r := BindArgument(st, ids, types, functionName, site, i, wild);
            var id := ParameterName(ids[i].name, wild);
            && r.frames == [st.frames[0][id := ArgumentBinding(ids, types, functionName, i, wild, i, st.tempCounter)]] + st.frames[1..]
            && r.llvmCode == st.llvmCode + ParameterText(LlvmTypeName(AstType(types[i])), id, i == |ids| - 1)
            && r.tempCounter == st.tempCounter + 1 && r.labelCounter == st.labelCounter
  {
    assert BoundName(ids, i, wild, i) == ParameterName(ids[i].name, wild);
  }

  /** When every parameter has a type, the header gains `Header`. */
  lemma {:induction false} ArgumentsText(st: GenState, ids: seq<Node>, types: seq<Node>, functionName: string,
                                          site: Site, i: nat, wild: nat)
    requires st.frames != [] && i <= |ids| <= |types|
    ensures AddArgumentsFrom(st, ids, types, functionName, site, i, wild).st.llvmCode
            == st.llvmCode + Header(ids, types, i, wild)
    decreases |ids| - i
  {
    if i == |ids| {
      assert st.llvmCode + "" == st.llvmCode;
    } else if !ids[i].Identifier? {
      ArgumentsText(st, ids, types, functionName, site, i + 1, wild);
    } else {
      var next := if ids[i].name == "_" then wild + 1 else wild;
      var written := BindArgument(st, ids, types, functionName, site, i, wild);
      var text := ParameterText(LlvmTypeName(AstType(types[i])), ParameterName(ids[i].name, wild), i == |ids| - 1);
      ArgumentsStep(st, ids, types, functionName, site, i, wild);
      ArgumentText(st, ids, types, functionName, site, i, wild);
      HeaderStep(ids, types, i, wild);
      ArgumentsText(written, ids, types, functionName, site, i + 1, next);
      Ir.Associative(st.llvmCode, text, Header(ids, types, i + 1, next));
    }
  }

  /** The text one identifier parameter appends. */
  lemma ArgumentText(st: GenState, ids: seq<Node>, types: seq<Node>, functionName: string, site: Site, i: nat, wild: nat)
    requires st.frames != [] && i < |ids| && i < |types| && ids[i].Identifier?
    ensures BindArgument(st, ids, types, functionName, site, i, wild).llvmCode
            == st.llvmCode + ParameterText(LlvmTypeName(AstType(types[i])), ParameterName(ids[i].name, wild), i == |ids| - 1)
  {
  }

  /** `Header` at an identifier parameter is its text followed by the rest. */
  lemma HeaderStep(ids: seq<Node>, types: seq<Node>, i: nat, wild: nat)
    requires i < |ids| <= |types| && ids[i].Identifier?
    ensures Header(ids, types, i, wild)
            == ParameterText(LlvmTypeName(AstType(types[i])), ParameterName(ids[i].name, wild), i == |ids| - 1)
               + Header(ids, types, i + 1, if ids[i].name == "_" then wild + 1 else wild)
  {
  }

  /**
   * When every parameter has a type: nothing is thrown, the outer frames are kept, and
   * the register counter moves on once per identifier parameter.
   */
  lemma {:induction false} ArgumentsCount(st: GenState, ids: seq<Node>, types: seq<Node>, functionName: string,
                                           site: Site, i: nat, wild: nat)
    requires st.frames != [] && i <= |ids| <= |types|
    ensures var r := AddArgumentsFrom(st, ids, types, functionName, site, i, wild);
            && r.out.None?
            && r.st.frames[1..] == st.frames[1..]
            && r.st.tempCounter == st.tempCounter + Identifiers(ids, i, |ids|)
            && r.st.labelCounter == st.labelCounter
    decreases |ids| - i
  {
    if i < |ids| {
      if !ids[i].Identifier? {
        ArgumentsCount(st, ids, types, functionName, site, i + 1, wild);
      } else {
        var next := if ids[i].name == "_" then wild + 1 else wild;
        BindArgumentShape(st, ids, types, functionName, site, i, wild);
        ArgumentsCount(BindArgument(st, ids, types, functionName, site, i, wild), ids, types, functionName, site, i + 1, next);
      }
    }
  }

  /** A name no parameter from `i` on is bound under keeps its place in the top frame. */
  lemma {:induction false} ArgumentsKeep(st: GenState, ids: seq<Node>, types: seq<Node>, functionName: string,
                                          site: Site, i: nat, wild: nat, x: string)
    requires st.frames != [] && i <= |ids| <= |types|
    requires forall k :: i <= k < |ids| && ids[k].Identifier? ==> BoundName(ids, i, wild, k) != x
    ensures var r := AddArgumentsFrom(st, ids, types, functionName, site, i, wild);
            && (x in r.st.frames[0] <==> x in st.frames[0])
            && (x in st.frames[0] ==> r.st.frames[0][x] == st.frames[0][x])
    decreases |ids| - i
  {
    if i < |ids| {
      var next := if ids[i].Identifier? && ids[i].name == "_" then wild + 1 else wild;
      forall k | i + 1 <= k < |ids| && ids[k].Identifier?
        ensures BoundName(ids, i + 1, next, k) != x
      {
        Shift(ids, i, wild, k);
      }
      if !ids[i].Identifier? {
        ArgumentsKeep(st, ids, types, functionName, site, i + 1, wild, x);
      } else {
        assert BoundName(ids, i, wild, i) != x;
        BindArgumentShape(st, ids, types, functionName, site, i, wild);
        ArgumentsKeep(BindArgument(st, ids, types, functionName, site, i, wild), ids, types, functionName, site, i + 1, next, x);
      }
    }
  }

  /**
   * Each identifier parameter that no later one shadows ends up bound in the top frame
   * to `ArgumentBinding`, its slot numbered by the register counter plus the number of
   * identifier parameters before it.
   */
  lemma {:induction false} ArgumentsBind(st: GenState, ids: seq<Node>, types: seq<Node>, functionName: string,
                                          site: Site, i: nat, wild: nat, k: nat)
    requires st.frames != [] && i <= k < |ids| <= |types|
    requires ids[k].Identifier? && LastBound(ids, i, wild, k)
    ensures BindsAt(AddArgumentsFrom(st, ids, types, functionName, site, i, wild).st, ids, types, functionName,
                    i, wild, k, st.tempCounter + Identifiers(ids, i, k))
    decreases |ids| - i, 1
  {
    if k == i {
      BindFirst(st, ids, types, functionName, site, i, wild);
    } else {
      BindLater(st, ids, types, functionName, site, i, wild, k);
    }
  }

  /** Parameter `k` is bound in the top frame of `r` as `ArgumentBinding` says, its slot numbered `counter`. */
  predicate BindsAt(r: GenState, ids: seq<Node>, types: seq<Node>, functionName: string, i: nat, wild: nat, k: nat,
                    counter: int)
    requires i <= k < |ids| && k < |types| && ids[k].Identifier?
  {
    && r.frames != []
    && BoundName(ids, i, wild, k) in r.frames[0]
    && r.frames[0][BoundName(ids, i, wild, k)] == ArgumentBinding(ids, types, functionName, i, wild, k, counter)
  }

  /** A binding stated from `i + 1` on is the same binding stated from `i` on. */
  lemma ShiftBinds(r: GenState, ids: seq<Node>, types: seq<Node>, functionName: string, i: nat, wild: nat, k: nat,
                   counter: int)
    requires i < k < |ids| <= |types| && ids[k].Identifier?
    requires BindsAt(r, ids, types, functionName, i + 1, if ids[i].Identifier? && ids[i].name == "_" then wild + 1 else wild,
                     k, counter + (if ids[i].Identifier? then 1 else 0) + Identifiers(ids, i + 1, k))
    ensures BindsAt(r, ids, types, functionName, i, wild, k, counter + Identifiers(ids, i, k))
  {
    Shift(ids, i, wild, k);
    ShiftBinding(ids, types, functionName, i, wild, k, counter);
  }

  /** The case of `ArgumentsBind` where the parameter comes after the first one walked. */
  lemma {:induction false} BindLater(st: GenState, ids: seq<Node>, types: seq<Node>, functionName: string,
                                      site: Site, i: nat, wild: nat, k: nat)
    requires st.frames != [] && i < k < |ids| <= |types|
    requires ids[k].Identifier? && LastBound(ids, i, wild, k)
    ensures BindsAt(AddArgumentsFrom(st, ids, types, functionName, site, i, wild).st, ids, types, functionName,
                    i, wild, k, st.tempCounter + Identifiers(ids, i, k))
    decreases |ids| - i, 0
  {
    var next := if ids[i].Identifier? && ids[i].name == "_" then wild + 1 else wild;
    var walked := if ids[i].Identifier? then BindArgument(st, ids, types, functionName, site, i, wild) else st;
    ShiftLast(ids, i, wild, k);
    ArgumentsStep(st, ids, types, functionName, site, i, wild);
    ArgumentsBind(walked, ids, types, functionName, site, i + 1, next, k);
    ShiftBinds(AddArgumentsFrom(walked, ids, types, functionName, site, i + 1, next).st, ids, types, functionName,
               i, wild, k, st.tempCounter);
  }

  /** A parameter that no later one shadows from `i` on is not shadowed from `i + 1` on either. */
  lemma ShiftLast(ids: seq<Node>, i: nat, wild: nat, k: nat)
    requires i < k < |ids| && ids[k].Identifier? && LastBound(ids, i, wild, k)
    ensures LastBound(ids, i + 1, if ids[i].Identifier? && ids[i].name == "_" then wild + 1 else wild, k)
  {
    var next := if ids[i].Identifier? && ids[i].name == "_" then wild + 1 else wild;
    Shift(ids, i, wild, k);
    forall j | k < j < |ids| && ids[j].Identifier?
      ensures BoundName(ids, i + 1, next, j) != BoundName(ids, i + 1, next, k)
    {
      Shift(ids, i, wild, j);
    }
  }

  /** Starting one parameter later gives a later parameter the same binding. */
  lemma ShiftBinding(ids: seq<Node>, types: seq<Node>, functionName: string, i: nat, wild: nat, k: nat, counter: int)
    requires i < k < |ids| && k < |types| && ids[k].Identifier?
    ensures var next := if ids[i].Identifier? && ids[i].name == "_" then wild + 1 else wild;
            var walked := counter + (if ids[i].Identifier? then 1 else 0);
            ArgumentBinding(ids, types, functionName, i + 1, next, k, walked + Identifiers(ids, i + 1, k))
            == ArgumentBinding(ids, types, functionName, i, wild, k, counter + Identifiers(ids, i, k))
  {
    Shift(ids, i, wild, k);
  }

  /** One round of `addArgumentsToCtx`: an identifier is bound and moves the register counter on by one. */
  lemma ArgumentsStep(st: GenState, ids: seq<Node>, types: seq<Node>, functionName: string, site: Site, i: nat, wild: nat)
    requires st.frames != [] && i < |ids| && i < |types|
    ensures var next := if ids[i].Identifier? && ids[i].name == "_" then wild + 1 else wild;
            var walked := if ids[i].Identifier? then BindArgument(st, ids, types, functionName, site, i, wild) else st;
            && walked.frames != []
            && AddArgumentsFrom(st, ids, types, functionName, site, i, wild)
               == AddArgumentsFrom(walked, ids, types, functionName, site, i + 1, next)
            && walked.tempCounter == st.tempCounter + (if ids[i].Identifier? then 1 else 0)
  {
    if ids[i].Identifier? {
      BindArgumentShape(st, ids, types, functionName, site, i, wild);
    }
  }

  /** The case of `ArgumentsBind` where the parameter is the first one walked. */
  lemma BindFirst(st: GenState, ids: seq<Node>, types: seq<Node>, functionName: string, site: Site, i: nat, wild: nat)
    requires st.frames != [] && i < |ids| <= |types|
    requires ids[i].Identifier? && LastBound(ids, i, wild, i)
    ensures BindsAt(AddArgumentsFrom(st, ids, types, functionName, site, i, wild).st, ids, types, functionName,
                    i, wild, i, st.tempCounter)
  {
    var next := if ids[i].name == "_" then wild + 1 else wild;
    var id := BoundName(ids, i, wild, i);
    forall j | i < j < |ids| && ids[j].Identifier?
      ensures BoundName(ids, i + 1, next, j) != id
    {
      Shift(ids, i, wild, j);
    }
    BindArgumentShape(st, ids, types, functionName, site, i, wild);
    ArgumentsKeep(BindArgument(st, ids, types, functionName, site, i, wild), ids, types, functionName, site, i + 1, next, id);
  }

  /** Every identifier parameter not shadowed by a later one is bound as `ArgumentBinding` says. */
  lemma ArgumentsBindAll(st: GenState, ids: seq<Node>, types: seq<Node>, functionName: string, site: Site)
    requires st.frames != [] && |ids| <= |types|
    ensures var r := AddArgumentsFrom(st, ids, types, functionName, site, 0, 0);
      forall k :: 0 <= k < |ids| && ids[k].Identifier? && LastBound(ids, 0, 0, k) ==>
        && BoundName(ids, 0, 0, k) in r.st.frames[0]
        && r.st.frames[0][BoundName(ids, 0, 0, k)]
           == ArgumentBinding(ids, types, functionName, 0, 0, k, st.tempCounter + Identifiers(ids, 0, k))
  {
    var r := AddArgumentsFrom(st, ids, types, functionName, site, 0, 0);
    forall k | 0 <= k < |ids| && ids[k].Identifier? && LastBound(ids, 0, 0, k)
      ensures && BoundName(ids, 0, 0, k) in r.st.frames[0]
              && r.st.frames[0][BoundName(ids, 0, 0, k)]
                 == ArgumentBinding(ids, types, functionName, 0, 0, k, st.tempCounter + Identifiers(ids, 0, k))
    {
      ArgumentsBind(st, ids, types, functionName, site, 0, 0, k);
    }
  }

  /** A name no parameter is bound under keeps its binding in the top frame. */
  lemma ArgumentsKeepAll(st: GenState, ids: seq<Node>, types: seq<Node>, functionName: string, site: Site)
    requires st.frames != [] && |ids| <= |types|
    ensures var r := AddArgumentsFrom(st, ids, types, functionName, site, 0, 0);
      forall x :: x in st.frames[0] && (forall k :: 0 <= k < |ids| && ids[k].Identifier? ==> BoundName(ids, 0, 0, k) != x)
        ==> x in r.st.frames[0] && r.st.frames[0][x] == st.frames[0][x]
  {
    var r := AddArgumentsFrom(st, ids, types, functionName, site, 0, 0);
    forall x | x in st.frames[0] && (forall k :: 0 <= k < |ids| && ids[k].Identifier? ==> BoundName(ids, 0, 0, k) != x)
      ensures x in r.st.frames[0] && r.st.frames[0][x] == st.frames[0][x]
    {
      ArgumentsKeep(st, ids, types, functionName, site, 0, 0, x);
    }
  }

  /**
   * `addArgumentsToCtx` with a type for every parameter (`AddArguments` with the types
   * present walks from the first parameter): nothing is thrown; the header gains
   * `Header`; every identifier parameter not shadowed by a later one is bound in the
   * new frame as `ArgumentBinding` says, wildcards as `__wild` + their index among the
   * wildcards; any other name keeps its binding; the frames below are untouched.
   */
  lemma ArgumentsBound(st: GenState, ids: seq<Node>, types: seq<Node>, functionName: string, site: Site)
    requires st.frames != []
    ensures var r := AddArgumentsFrom(st, ids, types, functionName, site, 0, 0);
      |ids| <= |types| ==>
        && r.out.None?
        && r.st.llvmCode == st.llvmCode + Header(ids, types, 0, 0)
        && r.st.frames[1..] == st.frames[1..]
        && r.st.tempCounter == st.tempCounter + Identifiers(ids, 0, |ids|)
        && (forall k :: 0 <= k < |ids| && ids[k].Identifier? && LastBound(ids, 0, 0, k) ==>
              && BoundName(ids, 0, 0, k) in r.st.frames[0]
              && r.st.frames[0][BoundName(ids, 0, 0, k)]
                 == ArgumentBinding(ids, types, functionName, 0, 0, k, st.tempCounter + Identifiers(ids, 0, k)))
        && (forall x :: x in st.frames[0] && (forall k :: 0 <= k < |ids| && ids[k].Identifier? ==> BoundName(ids, 0, 0, k) != x)
              ==> x in r.st.frames[0] && r.st.frames[0][x] == st.frames[0][x])
  {
    if |ids| <= |types| {
      ArgumentsText(st, ids, types, functionName, site, 0, 0);
      ArgumentsCount(st, ids, types, functionName, site, 0, 0);
      ArgumentsBindAll(st, ids, types, functionName, site);
      ArgumentsKeepAll(st, ids, types, functionName, site);
    }
  }

  // ---------------------------------------------------------------- one function

  /** The header text `generate` writes for a function's parameters: none when its type lists none. */
  function HeaderOf(ids: seq<Node>, types: Option<seq<Node>>): string
    requires types.Some? ==> |ids| <= |types.value|
  {
    if types.None? then "" else Header(ids, types.value, 0, 0)
  }

  /**
   * The text of a function whose name is bound and whose parameters all have types:
   * `define`, its type and register, the parameters' `Header`, the `entry` label, the
   * parameter slots by the new frame's bindings, the body's lines and the `ret`; then
   * the parameters' frame is popped.
   */
  lemma FunctionText(st: GenState, p: Program, d: Node)
    requires st.frames != [] && d.FunDecl?
    ensures var id := d.idList.id;
      var ids := d.idList.ids;
      var ts := ParameterTypes(d.functionType);
      var fc := LookupCtx(st.frames, id);
      fc.Some? && (ts.Some? ==> |ids| <= |ts.value|) ==>
        var ty := LlvmTypeName(fc.value.ty);
        var open := ConvertTypeToLlvm(st, fc.value.ty, ProgramSite(p)).st;
        var args := AddArguments(PushCtx(open.(llvmCode := open.llvmCode + "\ndefine " + J(ty) + " " + J(fc.value.reg) + "(")),
                                 ids, ts, id, ProgramSite(p));
        var started := args.st.(llvmCode := args.st.llvmCode + ") {\n" + "entry:\n");
        var body := GenExpr(ParameterSlotsFrom(started, ids, ProgramSite(p), 0, 0), Some("entry"), d.exprs);
        var r := EmitFunction(st, p, d);
        && r.out.None?
        && r.st.frames == body.st.frames[1..]
        && r.st.llvmCode == st.llvmCode + "\ndefine " + J(ty) + " " + J(fc.value.reg) + "(" + HeaderOf(ids, ts)
                            + ") {\n" + "entry:\n" + Slots(args.st.frames, ids, 0, 0)
                            + BodyLines(body.out.code) + Epilogue(id, ty, body.out.value)
  {
    var id := d.idList.id;
    var ids := d.idList.ids;
    var ts := ParameterTypes(d.functionType);
    var fc := LookupCtx(st.frames, id);
    if fc.Some? && (ts.Some? ==> |ids| <= |ts.value|) {
      var ty := LlvmTypeName(fc.value.ty);
      var open := ConvertTypeToLlvm(st, fc.value.ty, ProgramSite(p)).st;
      var header := open.(llvmCode := open.llvmCode + "\ndefine " + J(ty) + " " + J(fc.value.reg) + "(");
      if ts.Some? {
        ArgumentsText(PushCtx(header), ids, ts.value, id, ProgramSite(p), 0, 0);
        ArgumentsCount(PushCtx(header), ids, ts.value, id, ProgramSite(p), 0, 0);
      }
      var args := AddArguments(PushCtx(header), ids, ts, id, ProgramSite(p));
      assert args.st.llvmCode == header.llvmCode + HeaderOf(ids, ts);
      var started := args.st.(llvmCode := args.st.llvmCode + ") {\n" + "entry:\n");
      ParameterSlotLines(started, ids, ProgramSite(p), 0, 0);
    }
  }

  /** The module text is the helper definitions followed by the code. */
  lemma OutputOrder(st: GenState)
    ensures |Output(st)| == |st.helperFunctions| + |st.llvmCode|
    ensures Output(st)[..|st.helperFunctions|] == st.helperFunctions
    ensures Output(st)[|st.helperFunctions|..] == st.llvmCode
  {
  }
}
