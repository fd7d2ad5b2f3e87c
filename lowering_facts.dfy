/**
 * Properties of the code generator's lowering: how conditions become branches, how
 * values are threaded through labels, and what the generator state keeps.
 */
module LoweringFacts {
  import opened Wrappers
  import opened Text
  import opened Types
  import opened Ast
  import opened Ir
  import opened Lowering

  // ---------------------------------------------------------------------------------
  // Conditions.

  /** A Bool literal is one unconditional jump to its target, which is also the exit label. */
  lemma CondBoolLiteral(st: GenState, entry: Option<string>, tt: string, ff: string, n: Node)
    requires st.frames != [] && n.BoolLit?
    ensures var r := GenCond(st, entry, tt, ff, n);
            var target := if n.bval then tt else ff;
            && r.out.code == [Tab, Br(target), Nl]
            && Targets(r.out.code) == {target}
            && r.out.exit == Some(target)
            && r.st == st
  {
    var target := if n.bval then tt else ff;
    assert [Tab, Br(target), Nl][..2] == [Tab, Br(target)];
    assert [Tab, Br(target)][..1] == [Tab];
    assert [Tab][..0] == [];
    assert Targets([Tab]) == {};
    assert Targets([Tab, Br(target)]) == {target};
  }

  /** `!e` is `e` with its targets swapped, and takes no label of its own. */
  lemma CondNotSwaps(st: GenState, entry: Option<string>, tt: string, ff: string, n: Node)
    requires st.frames != [] && n.Unary? && n.op == "!"
    ensures GenCond(st, entry, tt, ff, n) == GenCond(st, entry, ff, tt, n.operand)
  {
  }

  /** Hence a double negation is lowered exactly as its operand. */
  lemma CondDoubleNegation(st: GenState, entry: Option<string>, tt: string, ff: string, e: Node, p: Pos, q: Pos)
    requires st.frames != []
    ensures GenCond(st, entry, tt, ff, Unary(p, "!", Unary(q, "!", e))) == GenCond(st, entry, tt, ff, e)
  {
    CondNotSwaps(st, entry, tt, ff, Unary(p, "!", Unary(q, "!", e)));
    CondNotSwaps(st, entry, ff, tt, Unary(q, "!", e));
  }

  /**
   * `a && b`: one fresh `and` label; `a` jumps to it when true and to `ff` when false,
   * `b` is entered there with the outer targets, and the exit is `b`'s.
   */
  lemma CondAndShape(st: GenState, entry: Option<string>, tt: string, ff: string, n: Node)
    requires st.frames != [] && n.Binary? && n.op == "&&"
    ensures var l2 := LabelName("and", st.labelCounter);
            var a := GenCond(st.(labelCounter := st.labelCounter + 1), entry, l2, ff, n.left);
            var b := GenCond(a.st, Some(l2), tt, ff, n.right);
            var r := GenCond(st, entry, tt, ff, n);
            && r.out.code == a.out.code + [Head(l2), Nl, Tab] + b.out.code
            && r.out.exit == b.out.exit
            && r.st == b.st
            && st.labelCounter < a.st.labelCounter
  {
  }

  /** `a || b`: the same shape, with `a` jumping to `tt` when true and to the fresh `or` label when false. */
  lemma CondOrShape(st: GenState, entry: Option<string>, tt: string, ff: string, n: Node)
    requires st.frames != [] && n.Binary? && n.op == "||"
    ensures var l2 := LabelName("or", st.labelCounter);
            var a := GenCond(st.(labelCounter := st.labelCounter + 1), entry, tt, l2, n.left);
            var b := GenCond(a.st, Some(l2), tt, ff, n.right);
            var r := GenCond(st, entry, tt, ff, n);
            && r.out.code == a.out.code + [Head(l2), Nl, Tab] + b.out.code
            && r.out.exit == b.out.exit
            && r.st == b.st
            && st.labelCounter < a.st.labelCounter
  {
  }

  /**
   * A comparison: the right operand is lowered at the left one's exit, the code ends in
   * one `icmp` with the operator's predicate and one `br i1` to `tt`/`ff`, and the exit
   * is the right operand's.
   */
  lemma CondComparison(st: GenState, entry: Option<string>, tt: string, ff: string, n: Node)
    requires st.frames != [] && n.Binary? && n.op in Comparisons
    ensures var left := GenExpr(st, entry, n.left);
            var right := GenExpr(left.st, left.out.exit, n.right);
            var ty := LlvmTypeName(left.out.ty);
            var tmp := RegisterName(ConvertTypeToLlvm(right.st, left.out.ty, NodeSite(n)).st.tempCounter);
            var r := GenCond(st, entry, tt, ff, n);
            && r.out.code == OrEmpty(left.out.code) + OrEmpty(right.out.code)
                             + [Tab, Icmp(tmp, Predicate(n.op), ty, left.out.value, right.out.value), Nl,
                                Tab, CondBr(Some(tmp), tt, ff), Nl]
            && r.out.exit == right.out.exit
  {
  }

  /** The predicate of each comparison is the one `convertOperatorToLLVM` gives after `icmp `. */
  lemma PredicateAgreesWithOperator(op: string)
    requires op in Comparisons
    ensures ConvertOperator(op) == "icmp " + Predicate(op)
    ensures Predicate(op) in {"eq", "ne", "slt", "sle", "sgt", "sge"}
  {
  }

  /**
   * An unsupported unary or binary operator: empty code at the entry label, and
   * `addErrorMessage` called twice on the node; for a positioned node the second call
   * stores nothing.
   */
  lemma CondUnsupported(st: GenState, entry: Option<string>, tt: string, ff: string, n: Node)
    requires st.frames != []
    requires (n.Unary? && n.op != "!") || (n.Binary? && !IsLogical(n) && n.op !in Comparisons)
    ensures var r := GenCond(st, entry, tt, ff, n);
            && r.out == Branched([], entry)
            && r.st == AddError(AddError(st, NodeSite(n)), NodeSite(n))
            && |r.st.errors| <= |st.errors| + 2
            && (Located(NodeSite(n)).Some? ==> r.st == AddError(st, NodeSite(n)) && |r.st.errors| <= |st.errors| + 1)
  {
    if Located(NodeSite(n)).Some? {
      OneReportPerLocation(st, NodeSite(n), NodeSite(n));
    }
  }

  /** Any other expression is lowered as a value and followed by a `br i1` on that value. */
  lemma CondFallback(st: GenState, entry: Option<string>, tt: string, ff: string, n: Node)
    requires st.frames != [] && !n.BoolLit? && !n.Unary? && !n.Binary? && !n.Exprs? && !n.Paren?
    ensures var v := GenExpr(st, entry, n);
            var r := GenCond(st, entry, tt, ff, n);
            && r.out.code == OrEmpty(v.out.code) + [Nl, Tab, CondBr(v.out.value, tt, ff), Nl]
            && r.out.exit == v.out.exit
            && r.st == v.st
  {
  }

  /**
   * A sequence of conditions keeps what it has built and appends each element's code in
   * order: the result from element `i` on is the code so far followed by what the
   * remaining elements give on their own.
   */
  lemma {:induction false} CondSequenceAppends(st: GenState, entry: Option<string>, tt: string, ff: string,
                                                n: Node, i: nat, code: Code)
    requires st.frames != [] && n.Exprs? && i <= |n.items|
    ensures var r := CondSequence(st, entry, tt, ff, n, i, code);
            var rest := CondSequence(st, entry, tt, ff, n, i, []);
            r.out.code == code + rest.out.code && r.out.exit == rest.out.exit && r.st == rest.st
    decreases |n.items| - i
  {
    if i < |n.items| {
      var e := GenCond(st, entry, tt, ff, n.items[i]);
      var sep: Code := if i == |n.items| - 1 then [] else [Semi];
      CondSequenceAppends(e.st, e.out.exit, tt, ff, n, i + 1, code + e.out.code + sep);
      CondSequenceAppends(e.st, e.out.exit, tt, ff, n, i + 1, [] + e.out.code + sep);
      assert code + e.out.code + sep + CondSequence(e.st, e.out.exit, tt, ff, n, i + 1, []).out.code
          == code + ([] + e.out.code + sep + CondSequence(e.st, e.out.exit, tt, ff, n, i + 1, []).out.code);
    }
  }

  /**
   * The elements of a condition sequence in order: element `i` is entered at the exit of
   * element `i - 1`, a `;` follows every element but the last, and the exit is the last one's.
   */
  lemma CondSequenceStep(st: GenState, entry: Option<string>, tt: string, ff: string, n: Node, i: nat)
    requires st.frames != [] && n.Exprs? && i < |n.items|
    ensures var e := GenCond(st, entry, tt, ff, n.items[i]);
            var rest := CondSequence(e.st, e.out.exit, tt, ff, n, i + 1, []);
            var r := CondSequence(st, entry, tt, ff, n, i, []);
            && r.out.code == e.out.code + (if i == |n.items| - 1 then [] else [Semi]) + rest.out.code
            && r.out.exit == rest.out.exit
            && r.st == rest.st
  {
    var e := GenCond(st, entry, tt, ff, n.items[i]);
    var sep: Code := if i == |n.items| - 1 then [] else [Semi];
    CondSequenceAppends(e.st, e.out.exit, tt, ff, n, i + 1, [] + e.out.code + sep);
    assert [] + e.out.code + sep == e.out.code + sep;
  }

  /** An empty condition sequence emits nothing and exits at its entry label. */
  lemma CondEmptySequence(st: GenState, entry: Option<string>, tt: string, ff: string, n: Node)
    requires st.frames != [] && n.Exprs? && n.items == []
    ensures GenCond(st, entry, tt, ff, n) == Gen(Branched([], entry), st)
  {
  }

  /** The last element of a condition sequence is followed by no separator. */
  lemma CondSequenceLast(st: GenState, entry: Option<string>, tt: string, ff: string, n: Node)
    requires st.frames != [] && n.Exprs? && |n.items| == 1
    ensures GenCond(st, entry, tt, ff, n) == GenCond(st, entry, tt, ff, n.items[0])
  {
    var e := GenCond(st, entry, tt, ff, n.items[0]);
    assert [] + e.out.code + [] == e.out.code;
    assert CondSequence(e.st, e.out.exit, tt, ff, n, 1, e.out.code) == Gen(Branched(e.out.code, e.out.exit), e.st);
    assert CondSequence(st, entry, tt, ff, n, 0, []) == CondSequence(e.st, e.out.exit, tt, ff, n, 1, e.out.code);
  }

  // ---------------------------------------------------------------------------------
  // Values.

  /** Literals emit no code, keep the state and exit at the entry label. */
  lemma Literals(st: GenState, entry: Option<string>, n: Node)
    requires st.frames != [] && (n.IntLit? || n.BoolLit? || n.NullLit?)
    ensures var r := GenExpr(st, entry, n);
            && r.st == st && r.out.code.None? && r.out.exit == entry
            && (n.IntLit? ==> r.out.value == Some(NatToString(n.value)) && r.out.ty == Some(TInt))
            && (n.BoolLit? ==> r.out.value == Some(if n.bval then "true" else "false") && r.out.ty == Some(TBool))
            && (n.NullLit? ==> r.out.value == Some("1") && r.out.ty == Some(TUnit))
  {
  }

  /** The operand a chain of `!` ends in. */
  function Innermost(e: Node): (r: Node)
    ensures !(r.Unary? && r.op == "!")
  {
    if e.Unary? && e.op == "!" then Innermost(e.operand) else e
  }

  /** The number of `!` a chain starts with. */
  function Depth(e: Node): nat {
    if e.Unary? && e.op == "!" then 1 + Depth(e.operand) else 0
  }

  /** The counting loop skips every `!` of the chain before it lowers anything. */
  lemma {:induction false} NegationSkip(st: GenState, entry: Option<string>, current: Node, negations: nat, n: Node)
    requires st.frames != []
    ensures GenNegations(st, entry, current, negations, n)
              == GenNegations(st, entry, Innermost(current), negations + Depth(current), n)
    decreases current
  {
    if current.Unary? && current.op == "!" {
      NegationSkip(st, entry, current.operand, negations + 1, n);
    }
  }

  /** Past the chain, the counting loop lowers the operand once and inverts it when the count is odd. */
  lemma NegationBase(st: GenState, entry: Option<string>, current: Node, negations: nat, n: Node)
    requires st.frames != [] && !(current.Unary? && current.op == "!")
    ensures GenNegations(st, entry, current, negations, n) == Parity(GenExpr(st, entry, current), negations, n)
  {
  }

  /** An inversion for an odd count; the lowering unchanged for an even one. */
  function Parity(inner: Gen<Lowered>, count: nat, n: Node): Gen<Lowered> {
    if count % 2 == 1 then Inversion(inner, n) else inner
  }

  /**
   * A chain of `!`: an even count gives the innermost operand's lowering unchanged and an
   * odd count adds exactly one `xor` with 1 after it (`Inverted`). The operand of the
   * outermost `!` is lowered once beforehand and that result is dropped, which the
   * state `a.st` shows.
   */
  lemma NotChainParity(st: GenState, entry: Option<string>, n: Node)
    requires st.frames != [] && n.Unary? && n.op == "!"
    ensures var a := GenExpr(st, entry, n.operand);
            var inner := GenExpr(a.st, entry, Innermost(n));
            var r := GenExpr(st, entry, n);
            && (Depth(n) % 2 == 0 ==> r == inner)
            && (Depth(n) % 2 == 1 ==> r == Inversion(inner, n))
  {
    NotDispatch(st, entry, n);
    ChainResult(GenExpr(st, entry, n.operand).st, entry, n);
  }

  /** The counting loop started on the outermost `!`'s operand, with that `!` counted. */
  lemma ChainResult(st: GenState, entry: Option<string>, n: Node)
    requires st.frames != [] && n.Unary? && n.op == "!"
    ensures GenNegations(st, entry, n.operand, 1, n) == Parity(GenExpr(st, entry, Innermost(n)), Depth(n), n)
  {
    NegationSkip(st, entry, n.operand, 1, n);
    assert Innermost(n) == Innermost(n.operand);
    assert Depth(n) == 1 + Depth(n.operand);
    NegationBase(st, entry, Innermost(n), Depth(n), n);
  }

  /** `generateExpr` on a `!` lowers the operand, then runs the counting loop from the operand with one `!` counted. */
  lemma NotDispatch(st: GenState, entry: Option<string>, n: Node)
    requires st.frames != [] && n.Unary? && n.op == "!"
    ensures GenExpr(st, entry, n) == GenNegations(GenExpr(st, entry, n.operand).st, entry, n.operand, 1, n)
  {
  }

  /** The one `xor` an odd chain adds: the operand's code, then `xor` into a fresh register. */
  lemma Inverted(inner: Gen<Lowered>, n: Node)
    ensures var r := Inversion(inner, n);
            var res := RegisterName(inner.st.tempCounter);
            && r.out.code == Some(Then(inner.out.code, [Semi, Nl]) + [XorOne(res, LlvmTypeName(inner.out.ty), inner.out.value)])
            && r.out.value == Some(res) && r.out.ty == inner.out.ty && r.out.exit == inner.out.exit
            && r.st.tempCounter == inner.st.tempCounter + 1
  {
  }

  /** The one `sub` of a `-`: the operand's code and `;`, then `sub ty 0, v` into a fresh register. */
  lemma Negated(inner: Gen<Lowered>, n: Node)
    ensures var r := Negation(inner, n);
            var res := RegisterName(inner.st.tempCounter);
            && r.out.code == Some(Then(inner.out.code, [Semi]) + [Sub0(res, LlvmTypeName(inner.out.ty), inner.out.value)])
            && r.out.value == Some(res) && r.out.ty == inner.out.ty && r.out.exit == inner.out.exit
            && r.st.tempCounter == inner.st.tempCounter + 1
  {
  }

  /**
   * A value-level `&&` or `||`: fresh `true`, `false` and `join` labels, the condition
   * jumping to the first two, both blocks jumping to `join`, and a phi of `true` and
   * `false` there; the value is Bool and the exit is `join`.
   */
  lemma ValueLogical(st: GenState, entry: Option<string>, n: Node)
    requires st.frames != [] && IsLogical(n)
    ensures var tt := LabelName("true", st.labelCounter);
            var ff := LabelName("false", st.labelCounter + 1);
            var join := LabelName("join", st.labelCounter + 2);
            var c := GenCond(st.(labelCounter := st.labelCounter + 3), entry, tt, ff, n);
            var res := RegisterName(c.st.tempCounter);
            var blocks := [Nl, Head(tt), Nl, Tab, Br(join), Nl] + [Nl, Head(ff), Nl, Tab, Br(join), Nl];
            var phi := [Nl, Head(join), Nl, Tab, BoolPhi(res, tt, ff), Nl];
            var r := GenExpr(st, entry, n);
            && r.out.code == Some(c.out.code + blocks + phi)
            && Targets(blocks) == {join}
            && r.out.value == Some(res) && r.out.ty == Some(TBool) && r.out.exit == Some(join)
  {
    var tt := LabelName("true", st.labelCounter);
    var ff := LabelName("false", st.labelCounter + 1);
    var join := LabelName("join", st.labelCounter + 2);
    assert GenExpr(st, entry, n) == GenLogical(st, entry, n);
    LogicalJoinShape(GenCond(st.(labelCounter := st.labelCounter + 3), entry, tt, ff, n), tt, ff, join);
  }

  lemma LogicalJoinShape(c: Gen<Branched>, tt: string, ff: string, join: string)
    ensures var res := RegisterName(c.st.tempCounter);
            var blocks := [Nl, Head(tt), Nl, Tab, Br(join), Nl] + [Nl, Head(ff), Nl, Tab, Br(join), Nl];
            var phi := [Nl, Head(join), Nl, Tab, BoolPhi(res, tt, ff), Nl];
            var r := LogicalJoin(c, tt, ff, join);
            && r.out.code == Some(c.out.code + blocks + phi)
            && Targets(blocks) == {join}
            && r.out.value == Some(res) && r.out.ty == Some(TBool) && r.out.exit == Some(join)
  {
    var res := RegisterName(c.st.tempCounter);
    var one := [Nl, Head(tt), Nl, Tab, Br(join), Nl];
    var two := [Nl, Head(ff), Nl, Tab, Br(join), Nl];
    var phi := [Nl, Head(join), Nl, Tab, BoolPhi(res, tt, ff), Nl];
    BlockTargets(tt, join);
    BlockTargets(ff, join);
    TargetsAppend(one, two);
    assert c.out.code + (one + two) + phi == c.out.code + (one + two + phi);
    assert one + two + phi == [Nl, Head(tt), Nl, Tab, Br(join), Nl, Nl, Head(ff), Nl, Tab, Br(join), Nl,
                               Nl, Head(join), Nl, Tab, BoolPhi(res, tt, ff), Nl];
  }

  /** A block that only jumps to `join`. */
  lemma BlockTargets(l: string, join: string)
    ensures Targets([Nl, Head(l), Nl, Tab, Br(join), Nl]) == {join}
  {
    var head := [Nl, Head(l), Nl, Tab];
    NoJumps(head);
    TargetsOne(Br(join));
    TargetsOne(Nl);
    TargetsAppend(head, [Br(join)]);
    TargetsAppend(head + [Br(join)], [Nl]);
    assert head + [Br(join)] + [Nl] == [Nl, Head(l), Nl, Tab, Br(join), Nl];
  }

  /**
   * Any other binary operator: both operands are lowered at the entry label, which is
   * also the exit label; `^` calls `@powi` and defines it; arithmetic gives Int and
   * comparisons Bool.
   */
  lemma ValueBinary(st: GenState, entry: Option<string>, n: Node)
    requires st.frames != [] && n.Binary? && !IsLogical(n)
    ensures var left := GenExpr(st, entry, n.left);
            var right := GenExpr(left.st, entry, n.right);
            var prefix := Then(left.out.code, [Semi]) + Then(right.out.code, [Semi]);
            var res := RegisterName(right.st.tempCounter);
            var ty := LlvmTypeName(left.out.ty);
            var r := GenExpr(st, entry, n);
            && r.out.exit == entry
            && r.out.value == Some(res)
            && r.out.ty == BinaryResultType(n.op)
            && (n.op == "^" ==> r.st.powFunctionDefined
                                && r.out.code == Some(prefix + [PowCall(res, ty, left.out.value, right.out.value), Nl]))
            && (n.op != "^" ==> r.out.code == Some(prefix + [BinInstr(res, ConvertOperator(n.op), ty, left.out.value, right.out.value), Nl]))
  {
    var left := GenExpr(st, entry, n.left);
    var right := GenExpr(left.st, entry, n.right);
    BinaryDispatch(st, entry, n);
    BinaryInstructionShape(left.out, right, entry, n);
  }

  /** Arithmetic gives Int, comparisons and logical operators Bool, anything else no type. */
  lemma BinaryResultTypes(op: string)
    ensures op in {"+", "-", "*", "/", "%", "^"} <==> BinaryResultType(op) == Some(TInt)
    ensures op in Comparisons + {"&&", "||"} <==> BinaryResultType(op) == Some(TBool)
  {
  }

  lemma BinaryDispatch(st: GenState, entry: Option<string>, n: Node)
    requires st.frames != [] && n.Binary? && !IsLogical(n)
    ensures GenExpr(st, entry, n) == GenBinary(st, entry, n)
  {
  }

  lemma BinaryInstructionShape(left: Lowered, right: Gen<Lowered>, entry: Option<string>, n: Node)
    requires n.Binary?
    ensures var prefix := Then(left.code, [Semi]) + Then(right.out.code, [Semi]);
            var res := RegisterName(right.st.tempCounter);
            var ty := LlvmTypeName(left.ty);
            var r := BinaryInstruction(left, right, entry, n);
            && r.out.exit == entry
            && r.out.value == Some(res)
            && r.out.ty == BinaryResultType(n.op)
            && (n.op == "^" ==> r.st.powFunctionDefined
                                && r.out.code == Some(prefix + [PowCall(res, ty, left.value, right.out.value), Nl]))
            && (n.op != "^" ==> r.out.code == Some(prefix + [BinInstr(res, ConvertOperator(n.op), ty, left.value, right.out.value), Nl]))
  {
  }

  /** An empty sequence emits no code and has a null value and type. */
  lemma EmptySequence(st: GenState, entry: Option<string>, n: Node)
    requires st.frames != [] && n.Exprs? && n.items == []
    ensures GenExpr(st, entry, n) == Gen(Lowered(Some([]), None, None, entry), st)
  {
  }

  /** While elements remain, the value and type built so far are irrelevant: they end up the last element's. */
  lemma {:induction false} SequenceValueIsLast(st: GenState, entry: Option<string>, n: Node, i: nat, code: Code,
                                                v1: Option<string>, t1: Option<Type>, v2: Option<string>, t2: Option<Type>)
    requires st.frames != [] && n.Exprs? && i < |n.items|
    ensures GenSequence(st, entry, n, i, code, v1, t1) == GenSequence(st, entry, n, i, code, v2, t2)
    decreases |n.items| - i
  {
    if i < |n.items| - 1 {
      var e := GenExpr(st, entry, n.items[i]);
      SequenceValueIsLast(e.st, e.out.exit, n, i + 1, code + Then(e.out.code, [Semi]), v1, t1, v2, t2);
    }
  }

  /**
   * The last element of a sequence gives its value, type and exit label, and its code
   * with no separator after it.
   */
  lemma SequenceLast(st: GenState, entry: Option<string>, n: Node, code: Code, value: Option<string>, ty: Option<Type>)
    requires st.frames != [] && n.Exprs? && |n.items| > 0
    ensures var e := GenExpr(st, entry, n.items[|n.items| - 1]);
            GenSequence(st, entry, n, |n.items| - 1, code, value, ty)
              == Gen(Lowered(Some(code + OrEmpty(e.out.code)), e.out.value, e.out.ty, e.out.exit), e.st)
  {
  }

  /** The label is threaded through a sequence: each element is lowered at the previous one's exit. */
  lemma SequenceThreadsLabel(st: GenState, entry: Option<string>, n: Node, i: nat, code: Code,
                             value: Option<string>, ty: Option<Type>)
    requires st.frames != [] && n.Exprs? && i + 1 < |n.items|
    ensures var e := GenExpr(st, entry, n.items[i]);
            GenSequence(st, entry, n, i, code, value, ty)
              == GenSequence(e.st, e.out.exit, n, i + 1, code + Then(e.out.code, [Semi]), value, ty)
  {
  }

  /** `let`: the binding goes into the enclosing frame after the body's frame is popped. */
  lemma ValueLet(st: GenState, entry: Option<string>, n: Node)
    requires st.frames != [] && n.Let?
    ensures var v := GenExpr(PushCtx(st), entry, n.block);
            var outer := PopCtx(v.st);
            var declared := ConvertAstToType(outer, n.letType).out;
            var r := GenLet(st, entry, n);
            var b := LookupCtx(r.st.frames, n.id);
            && |v.st.frames| == |st.frames| + 1
            && r.out.ty == declared && r.out.exit == v.out.exit
            && b.Some? && b.value.ty == declared && b.value.reg == r.out.value && !b.value.isFunction
            && r.st.frames[1..] == outer.frames[1..]
  {
    var v := GenExpr(PushCtx(st), entry, n.block);
    LetBindingShape(v.out, PopCtx(v.st), n);
  }

  /**
   * The code and binding of a `let` once its value is lowered: an `alloca`, a `store` of
   * the value (or of `1`, see `StoredValueCases`) and a `load` into the name the
   * binding is recorded under, in the top frame of the enclosing scope.
   */
  lemma LetBindingShape(v: Lowered, st: GenState, n: Node)
    requires st.frames != [] && n.Let?
    ensures var declared := ConvertAstToType(st, n.letType);
            var ty := LlvmTypeName(declared.out);
            var t0 := st.tempCounter;
            var slot := "%ptr_" + Sanitize(n.id) + IntToString(t0);
            var name := "%" + Sanitize(n.id) + IntToString(t0 + 1);
            var r := LetBinding(v, st, n);
            && r.out.code == Some(OrEmpty(v.code) + [Tab, Alloca(slot, ty), Nl,
                                                     Tab, Store(ty, Some(StoredValue(v, declared.out)), Some(slot)), Nl,
                                                     Tab, Load(name, ty, Some(slot)), Nl])
            && r.out.value == Some(name) && r.out.ty == declared.out && r.out.exit == v.exit
            && LookupCtx(r.st.frames, n.id) == Some(Binding(declared.out, Some(name), Some(slot), false, None))
            && r.st.frames[1..] == st.frames[1..]
            && r.st.tempCounter == t0 + 2
  {
  }

  /** A declared-Unit binding of an Int or Bool value, and a null value, store `1`. */
  lemma StoredValueCases(v: Lowered, declared: Option<Type>)
    ensures declared == Some(TUnit) && (v.ty == Some(TInt) || v.ty == Some(TBool)) ==> StoredValue(v, declared) == "1"
    ensures v.value.None? ==> StoredValue(v, declared) == "1"
    ensures v.value.Some? && !(declared == Some(TUnit) && (v.ty == Some(TInt) || v.ty == Some(TBool)))
            ==> StoredValue(v, declared) == v.value.value
  {
  }

  /** A branch's code always ends in a jump to `join`, which adds `join` to its targets. */
  lemma BranchJumpsToJoin(code: Option<Code>, join: string)
    ensures var b := BranchCode(code, join);
            b != [] && b[|b| - 1] == Br(join) && Targets(b) == Targets(OrEmpty(code)) + {join}
  {
    TargetsOne(Br(join));
    match code
    case None =>
    case Some(c) =>
      NoJumps([Nl, Tab]);
      TargetsAppend(c, [Nl, Tab]);
      TargetsAppend(c + [Nl, Tab], [Br(join)]);
      assert c + [Nl, Tab] + [Br(join)] == c + [Nl, Tab, Br(join)];
  }

  /** A null or empty branch value becomes `1` in the phi; any other value is kept. */
  lemma PhiValues(v: Option<string>)
    ensures v.None? || v == Some("") ==> PhiValue(v) == "1"
    ensures v.Some? && v.value != "" ==> PhiValue(v) == v.value
  {
  }

  /**
   * The join of an `if`: the phi comes last, takes each branch's exit label (`tt` or
   * `ff` when it has none), and the result has the then-branch's type and exits at `join`.
   */
  lemma IfJoinShape(c: Branched, t: Lowered, thenTy: Option<string>, e: Lowered, st: GenState,
                    tt: string, ff: string, join: string)
    ensures var res := RegisterName(st.tempCounter);
            var r := IfJoin(c, t, thenTy, e, st, tt, ff, join);
            && r.out.code.Some? && |c.code| < |r.out.code.value|
            && r.out.code.value[|r.out.code.value| - 1]
                 == Phi(res, thenTy, PhiValue(t.value), t.exit.GetOr(tt), PhiValue(e.value), e.exit.GetOr(ff))
            && r.out.code.value[..|c.code|] == c.code
            && r.out.value == Some(res) && r.out.ty == t.ty && r.out.exit == Some(join)
  {
  }

  /**
   * `while`: a jump to the condition label, the condition (jumping to the body or the
   * end), the body, and a jump back; no value, type Unit, exit at the end label.
   */
  lemma ValueWhile(st: GenState, entry: Option<string>, n: Node)
    requires st.frames != [] && n.While?
    ensures var cond := NextLabel(st, "while_cond");
            var body := NextLabel(cond.st, "while_body");
            var end := NextLabel(body.st, "while_end");
            var c := GenCond(PushCtx(end.st), Some(cond.out), body.out, end.out, n.cond);
            var r := GenWhile(st, entry, n);
            && cond.out == LabelName("while_cond", st.labelCounter)
            && end.out == LabelName("while_end", st.labelCounter + 2)
            && r.out.code.Some?
            && (var code := r.out.code.value;
                && |code| >= 4 + |c.out.code| + 5
                && code[..4] == [Br(cond.out), Nl, Head(cond.out), Nl]
                && code[4..4 + |c.out.code|] == c.out.code
                && code[|code| - 5..] == [Tab, Br(cond.out), Nl, Head(end.out), Nl])
            && r.out.value.None? && r.out.ty == Some(TUnit) && r.out.exit == Some(end.out)
  {
    var cond := NextLabel(st, "while_cond");
    var body := NextLabel(cond.st, "while_body");
    var end := NextLabel(body.st, "while_end");
    var c := GenCond(PushCtx(end.st), Some(cond.out), body.out, end.out, n.cond);
    var b := GenExpr(PushCtx(PopCtx(c.st)), Some(body.out), n.body);
    Framed([Br(cond.out), Nl, Head(cond.out), Nl], c.out.code, [Head(body.out), Nl], OrNullText(b.out.code),
           [Tab, Br(cond.out), Nl, Head(end.out), Nl]);
  }

  /** Where the first, second and last of five concatenated parts sit in the whole. */
  lemma Framed(prefix: Code, middle: Code, head: Code, tail: Code, suffix: Code)
    ensures var code := prefix + middle + head + tail + suffix;
            && |code| == |prefix| + |middle| + |head| + |tail| + |suffix|
            && code[..|prefix|] == prefix
            && code[|prefix|..|prefix| + |middle|] == middle
            && code[|code| - |suffix|..] == suffix
  {
  }

  // ---------------------------------------------------------------------------------
  // Identifiers, `-`, `set`, parentheses and calls.

  /**
   * An identifier, by its binding in the innermost frame that has it. Unbound: no code,
   * no value, one report. Bound to Unit: its register as is. With a slot and a local
   * register: a `load` from the slot. With a global register (`@...`): a `load` from the
   * global. Otherwise: its register as is. A `load` goes into the next register, and a
   * bound identifier has its binding's type; every case exits at the entry label.
   */
  lemma IdentifierLoad(st: GenState, entry: Option<string>, n: Node)
    requires n.Identifier?
    ensures var b := LookupCtx(st.frames, n.name);
            var res := RegisterName(st.tempCounter);
            var r := GenIdentifier(st, entry, n);
            && r.out.exit == entry
            && (b.None? ==> r.out == Lowered(Some([]), None, None, entry) && r.st == AddError(st, NodeSite(n)))
            && (b.Some? ==> r.out.ty == b.value.ty && r.st.tempCounter == st.tempCounter + 1)
            && (b.Some? && b.value.ty == Some(TUnit) ==> r.out.code == Some([]) && r.out.value == b.value.reg)
            && (b.Some? && b.value.ty != Some(TUnit) && b.value.ptr.Some? && b.value.reg.Some?
                && !StartsWith(b.value.reg.value, "@")
                ==> r.out.code == Some([Tab, Load(res, LlvmTypeName(b.value.ty), b.value.ptr), Nl])
                    && r.out.value == Some(res))
            && (b.Some? && b.value.ty != Some(TUnit) && b.value.reg.Some? && StartsWith(b.value.reg.value, "@")
                ==> r.out.code == Some([Tab, Load(res, LlvmTypeName(b.value.ty), b.value.reg), Nl])
                    && r.out.value == Some(res))
            && (b.Some? && b.value.ty != Some(TUnit) && (b.value.reg.None? || (b.value.ptr.None? && !StartsWith(b.value.reg.value, "@")))
                ==> r.out.code == Some([]) && r.out.value == b.value.reg)
  {
  }

  /**
   * `- e`: the operand's code, then `sub ty 0, v` into the register after every register
   * the operand used; the result has the operand's type and exit label.
   */
  lemma NegationShape(st: GenState, entry: Option<string>, n: Node)
    requires st.frames != [] && n.Unary? && n.op == "-"
    ensures var a := GenExpr(st, entry, n.operand);
            var res := RegisterName(a.st.tempCounter);
            var r := GenExpr(st, entry, n);
            && st.tempCounter <= a.st.tempCounter
            && r.out.code == Some(Then(a.out.code, [Semi]) + [Sub0(res, LlvmTypeName(a.out.ty), a.out.value)])
            && r.out.value == Some(res) && r.out.ty == a.out.ty && r.out.exit == a.out.exit
            && r.st.tempCounter == a.st.tempCounter + 1
  {
    Negated(GenExpr(st, entry, n.operand), n);
  }

  /**
   * `set`: the new value is lowered in a pushed frame; once that frame is popped, one
   * `store` goes through the slot of the variable's binding there. No value, type Unit,
   * and the exit label is the value's.
   */
  lemma SetShape(st: GenState, entry: Option<string>, n: Node)
    requires st.frames != [] && n.SetExpr?
    ensures var v := GenExpr(PushCtx(st), entry, n.rhs);
            var outer := PopCtx(v.st);
            var b := if n.lhs.Identifier? then LookupCtx(outer.frames, n.lhs.name) else None;
            var ty := LlvmTypeName(if b.Some? then b.value.ty else None);
            var r := GenExpr(st, entry, n);
            && |v.st.frames| == |st.frames| + 1 && |outer.frames| == |st.frames|
            && r.out.code == Some(OrEmpty(v.out.code) + [Nl, Tab, Store(ty, v.out.value, if b.Some? then b.value.ptr else None), Nl])
            && r.out.value.None? && r.out.ty == Some(TUnit) && r.out.exit == v.out.exit
            && r.st.frames == outer.frames && r.st.tempCounter == v.st.tempCounter
  {
  }

  /** A parenthesised value is its inner expression's lowering, in a frame pushed for it and popped after. */
  lemma ValueParen(st: GenState, entry: Option<string>, n: Node)
    requires st.frames != [] && n.Paren?
    ensures var a := GenExpr(PushCtx(st), entry, n.inner);
            var r := GenExpr(st, entry, n);
            && |a.st.frames| == |st.frames| + 1
            && r.out == a.out && r.st == PopCtx(a.st) && |r.st.frames| == |st.frames|
  {
  }

  /** A parenthesised condition is its inner condition, in the same frame: no frame is pushed. */
  lemma CondParen(st: GenState, entry: Option<string>, tt: string, ff: string, n: Node)
    requires st.frames != [] && n.Paren?
    ensures GenCond(st, entry, tt, ff, n) == GenCond(st, entry, tt, ff, n.inner)
  {
  }

  /** The node lowered for argument `i`: an item of the list, or the single argument node itself. */
  function ArgumentNode(args: Node, i: nat): Node
    requires i < ArgCount(args)
  {
    if args.Exprs? then args.items[i] else args
  }

  /** The arguments lowered before are kept in front of the rest. */
  lemma {:induction false} ArgumentsAccumulate(st: GenState, entry: Option<string>, args: Node, i: nat, done: seq<Lowered>)
    requires st.frames != [] && i <= ArgCount(args)
    ensures var r := GenArguments(st, entry, args, i, []);
            GenArguments(st, entry, args, i, done) == Gen(done + r.out, r.st)
    decreases ArgCount(args) - i
  {
    if i == ArgCount(args) {
      assert done + [] == done;
    } else {
      var a := GenExpr(st, entry, ArgumentNode(args, i));
      ArgumentsAccumulate(a.st, entry, args, i + 1, done + [a.out]);
      ArgumentsAccumulate(a.st, entry, args, i + 1, [a.out]);
      var rest := GenArguments(a.st, entry, args, i + 1, []);
      assert [] + [a.out] == [a.out];
      assert GenArguments(st, entry, args, i, []) == GenArguments(a.st, entry, args, i + 1, [a.out]);
      assert GenArguments(st, entry, args, i, done) == GenArguments(a.st, entry, args, i + 1, done + [a.out]);
      assert done + [a.out] + rest.out == done + ([a.out] + rest.out);
    }
  }

  /**
   * Arguments are lowered in order, each at the call's entry label: argument `i` first,
   * then the rest from the state it leaves.
   */
  lemma ArgumentsInOrder(st: GenState, entry: Option<string>, args: Node, i: nat)
    requires st.frames != [] && i < ArgCount(args)
    ensures var a := GenExpr(st, entry, ArgumentNode(args, i));
            var rest := GenArguments(a.st, entry, args, i + 1, []);
            GenArguments(st, entry, args, i, []) == Gen([a.out] + rest.out, rest.st)
  {
    var a := GenExpr(st, entry, ArgumentNode(args, i));
    ArgumentsAccumulate(a.st, entry, args, i + 1, [a.out]);
    assert [] + [a.out] == [a.out];
    assert GenArguments(st, entry, args, i, []) == GenArguments(a.st, entry, args, i + 1, [a.out]);
  }

  /** The `type value` text one argument contributes to a call. */
  function ArgumentText(a: Lowered): string {
    PassedText(LlvmTypeName(a.ty), a.value)
  }

  /** The texts of all arguments, in order. */
  function ArgumentTexts(args: seq<Lowered>): seq<string> {
    seq(|args|, k requires 0 <= k < |args| => ArgumentText(args[k]))
  }

  /** The code of arguments `i` on, each followed by `;` when it has code. */
  function ArgumentsCode(args: seq<Lowered>, i: nat): Code
    requires i <= |args|
    decreases |args| - i
  {
    if i == |args| then [] else Then(args[i].code, [Semi]) + ArgumentsCode(args, i + 1)
  }

  /** The fold over a call's lowered arguments writes their code in order and leaves frames and counters as they were. */
  lemma {:induction false} PassEachCode(st: GenState, n: Node, args: seq<Lowered>, i: nat, code: Code, texts: seq<string>)
    requires i <= |args|
    ensures var r := PassEach(st, n, args, i, code, texts);
            && r.out.0 == code + ArgumentsCode(args, i)
            && r.st.frames == st.frames && r.st.tempCounter == st.tempCounter
    decreases |args| - i
  {
    if i < |args| {
      var ty := ConvertTypeToLlvm(st, args[i].ty, NodeSite(n));
      var texts' := texts + [PassedText(ty.out, args[i].value)];
      PassEachCode(ty.st, n, args, i + 1, code + Then(args[i].code, [Semi]), texts');
    }
  }

  /** The fold over a call's lowered arguments adds one `type value` text per argument, in order. */
  lemma {:induction false} PassEachTexts(st: GenState, n: Node, args: seq<Lowered>, i: nat, code: Code, texts: seq<string>)
    requires i <= |args|
    ensures var r := PassEach(st, n, args, i, code, texts);
            && r.out.1[..|texts|] == texts
            && (forall k :: i <= k < |args| ==> r.out.1[|texts| + k - i] == ArgumentText(args[k]))
    decreases |args| - i
  {
    if i < |args| {
      var ty := ConvertTypeToLlvm(st, args[i].ty, NodeSite(n));
      var texts' := texts + [PassedText(ty.out, args[i].value)];
      PassEachTexts(ty.st, n, args, i + 1, code + Then(args[i].code, [Semi]), texts');
      var r := PassEach(ty.st, n, args, i + 1, code + Then(args[i].code, [Semi]), texts');
      assert r.out.1[..|texts|] == r.out.1[..|texts'|][..|texts|];
      assert r.out.1[|texts|] == r.out.1[..|texts'|][|texts|];
    }
  }

  /**
   * The fold over a call's lowered arguments: their code in order, and one `type value`
   * text per argument in order; frames and counters are left as they were.
   */
  lemma PassEachParts(st: GenState, n: Node, args: seq<Lowered>, i: nat, code: Code, texts: seq<string>)
    requires i <= |args|
    ensures var r := PassEach(st, n, args, i, code, texts);
            && r.out.0 == code + ArgumentsCode(args, i)
            && |r.out.1| == |texts| + |args| - i
            && r.out.1[..|texts|] == texts
            && (forall k :: i <= k < |args| ==> r.out.1[|texts| + k - i] == ArgumentText(args[k]))
            && r.st.frames == st.frames && r.st.tempCounter == st.tempCounter
  {
    PassEachCode(st, n, args, i, code, texts);
    PassEachTexts(st, n, args, i, code, texts);
  }

  /**
   * A call of a declared function: the arguments lowered in order at the entry label,
   * their code, and one `call` into the register after every register they used. The
   * call's type is the one bound to the function's name in the innermost frame that has
   * it (Unit when none does), and it passes each argument's `type value` text in order.
   */
  lemma UserCallShape(st: GenState, entry: Option<string>, n: Node)
    requires st.frames != [] && n.Call?
    ensures var args := GenArguments(st, entry, n.args, 0, []);
            var found := LookupCtx(args.st.frames, n.id);
            var returnType := if found.Some? then found.value.ty else Some(TUnit);
            var res := RegisterName(args.st.tempCounter);
            var r := GenUserCall(st, entry, n);
            && |args.out| == ArgCount(n.args) && st.tempCounter <= args.st.tempCounter
            && r.out.code == Some(ArgumentsCode(args.out, 0) + [Invoke(res, LlvmTypeName(returnType), n.id, ArgumentTexts(args.out))])
            && r.out.value == Some(res) && r.out.ty == returnType && r.out.exit == entry
  {
    var args := GenArguments(st, entry, n.args, 0, []);
    PassedArguments(args.st, n, args.out);
  }

  /** The whole fold: all arguments' code, and all their texts. */
  lemma PassedArguments(st: GenState, n: Node, args: seq<Lowered>)
    ensures var p := PassEach(st, n, args, 0, [], []);
            && p.out == (ArgumentsCode(args, 0), ArgumentTexts(args))
            && p.st.frames == st.frames && p.st.tempCounter == st.tempCounter
  {
    PassEachParts(st, n, args, 0, [], []);
    var p := PassEach(st, n, args, 0, [], []);
    assert [] + ArgumentsCode(args, 0) == ArgumentsCode(args, 0);
    assert forall k :: 0 <= k < |args| ==> p.out.1[k] == p.out.1[0 + k - 0];
    assert p.out.1 == ArgumentTexts(args);
  }

  /**
   * The code `print` gives one lowered argument: its own code and `;`, then for an Int a
   * `getelementptr` of `@.fmt.int` and one `printf` of the value; for a Bool an
   * `icmp`, a `select` between `@.str.true` and `@.str.false` and one `printf` of the
   * selected text; for Unit a `getelementptr` of `@.str.unit` and one `printf`; each
   * time with those constants defined. A String is reported and prints nothing, and any
   * other type prints nothing.
   */
  lemma PrintArgumentShape(st: GenState, n: Node, a: Lowered)
    ensures var prefix := Then(a.code, [Semi]);
            var t := st.tempCounter;
            var r := PrintArgument(st, n, a);
            && |prefix| <= |r.out| && r.out[..|prefix|] == prefix
            && (a.ty == Some(TInt) ==>
                  && r.out[|prefix|..] == [Gep(RegisterName(t), "[3 x i8]", "@.fmt.int"), Semi, PrintfInt(RegisterName(t), a.value)]
                  && Contains(r.st.helperFunctions, "@.fmt.int") && r.st.tempCounter == t + 1)
            && (a.ty == Some(TBool) ==>
                  && r.out[|prefix|..] == [IsTrue(RegisterName(t), a.value), Semi,
                                           SelectBoolText(RegisterName(t + 1), RegisterName(t)), Semi,
                                           PrintfText(RegisterName(t + 1))]
                  && Contains(r.st.helperFunctions, "@.str.false") && r.st.tempCounter == t + 2)
            && (a.ty == Some(TUnit) ==>
                  && r.out[|prefix|..] == [Gep(RegisterName(t), "[3 x i8]", "@.str.unit"), Semi, PrintfText(RegisterName(t))]
                  && Contains(r.st.helperFunctions, "@.str.unit") && r.st.tempCounter == t + 1)
            && (a.ty == Some(TString) ==> r.out == prefix && r.st == AddError(st, NodeSite(n)))
            && (a.ty != Some(TInt) && a.ty != Some(TBool) && a.ty != Some(TUnit) && a.ty != Some(TString)
                ==> r.out == prefix && r.st == st)
  {
    var prefix := Then(a.code, [Semi]);
    match a.ty
    case Some(TInt) =>
      FormatDefinedOnce(st, "%d\\00", "[3 x i8]", "@.fmt.int");
    case Some(TBool) =>
      var s1 := DefinePrintfFormat(st, "true\\00", "[5 x i8]", "@.str.true");
      FormatDefinedOnce(s1, "false\\00", "[6 x i8]", "@.str.false");
    case Some(TUnit) =>
      FormatDefinedOnce(st, "unit\\00", "[5 x i8]", "@.str.unit");
    case _ =>
  }

  /** The code printed before is kept in front of the rest. */
  lemma {:induction false} PrintEachAccumulates(st: GenState, n: Node, args: seq<Lowered>, i: nat, code: Code)
    requires i <= |args|
    ensures var r := PrintEach(st, n, args, i, []);
            PrintEach(st, n, args, i, code) == Gen(code + r.out, r.st)
    decreases |args| - i
  {
    if i == |args| {
      assert code + [] == code;
    } else {
      var p := PrintArgument(st, n, args[i]);
      PrintEachAccumulates(p.st, n, args, i + 1, code + p.out);
      PrintEachAccumulates(p.st, n, args, i + 1, p.out);
      var rest := PrintEach(p.st, n, args, i + 1, []);
      assert [] + p.out == p.out;
      assert PrintEach(st, n, args, i, []) == PrintEach(p.st, n, args, i + 1, p.out);
      assert PrintEach(st, n, args, i, code) == PrintEach(p.st, n, args, i + 1, code + p.out);
      assert code + p.out + rest.out == code + (p.out + rest.out);
    }
  }

  /** `print` handles its arguments in order: argument `i`'s code first, then the rest from the state it leaves. */
  lemma PrintEachInOrder(st: GenState, n: Node, args: seq<Lowered>, i: nat)
    requires i < |args|
    ensures var p := PrintArgument(st, n, args[i]);
            var rest := PrintEach(p.st, n, args, i + 1, []);
            PrintEach(st, n, args, i, []) == Gen(p.out + rest.out, rest.st)
  {
    var p := PrintArgument(st, n, args[i]);
    PrintEachAccumulates(p.st, n, args, i + 1, p.out);
    assert [] + p.out == p.out;
    assert PrintEach(st, n, args, i, []) == PrintEach(p.st, n, args, i + 1, p.out);
  }

  /**
   * `print(...)`: every argument lowered at the entry label, then the printing code of
   * each in order (`PrintEachInOrder`, `PrintArgumentShape`); the value is the empty
   * text, the type Unit, the exit the entry label, and `@printf` is declared.
   */
  lemma PrintShape(st: GenState, entry: Option<string>, n: Node)
    requires st.frames != [] && n.Call? && n.id == "print"
    ensures var args := GenArguments(st, entry, n.args, 0, []);
            var printed := PrintEach(args.st, n, args.out, 0, []);
            var r := GenExpr(st, entry, n);
            && |args.out| == ArgCount(n.args)
            && r.out == Lowered(Some(printed.out), Some(""), Some(TUnit), entry)
            && r.st == DeclarePrintf(printed.st) && Contains(r.st.helperFunctions, "@printf")
  {
    var args := GenArguments(st, entry, n.args, 0, []);
    PrintfDeclaredOnce(PrintEach(args.st, n, args.out, 0, []).st);
  }

  /** `generateExpr` hands each construct to its own lowering: the operators. */
  lemma ExprDispatch(st: GenState, entry: Option<string>, n: Node)
    requires st.frames != []
    ensures n.Unary? && n.op == "-" ==> GenExpr(st, entry, n) == Negation(GenExpr(st, entry, n.operand), n)
    ensures n.Unary? && n.op != "-" && n.op != "!" ==> GenExpr(st, entry, n) == Gen(Nothing, GenExpr(st, entry, n.operand).st)
    ensures n.Binary? && !IsLogical(n) ==> GenExpr(st, entry, n) == GenBinary(st, entry, n)
    ensures IsLogical(n) ==> GenExpr(st, entry, n) == GenLogical(st, entry, n)
  {
  }

  /** `generateExpr` on the compound expressions. */
  lemma CompoundDispatch(st: GenState, entry: Option<string>, n: Node)
    requires st.frames != []
    ensures n.Exprs? ==> GenExpr(st, entry, n) == GenSequence(st, entry, n, 0, [], None, None)
    ensures n.Let? ==> GenExpr(st, entry, n) == GenLet(st, entry, n)
    ensures n.SetExpr? ==> GenExpr(st, entry, n) == GenSet(st, entry, n)
    ensures n.If? ==> GenExpr(st, entry, n) == GenIf(st, entry, n)
    ensures n.While? ==> GenExpr(st, entry, n) == GenWhile(st, entry, n)
  {
  }

  /**
   * `generateExpr` on names and calls; a string literal or array type is reported and
   * gives nothing, and a declaration, an array access or creation, or a type gives
   * nothing and changes nothing.
   */
  lemma LeafDispatch(st: GenState, entry: Option<string>, n: Node)
    requires st.frames != []
    ensures n.Identifier? ==> GenExpr(st, entry, n) == GenIdentifier(st, entry, n)
    ensures n.Call? && n.id == "print" ==> GenExpr(st, entry, n) == GenPrint(st, entry, n)
    ensures n.Call? && n.id != "print" ==> GenExpr(st, entry, n) == GenUserCall(st, entry, n)
    ensures n.StringLit? || n.ArrayType? ==> GenExpr(st, entry, n) == Gen(Nothing, AddError(st, NodeSite(n)))
    ensures n.VarDecl? || n.FunDecl? || n.ArrayAccess? || n.ArrayCreation? || n.BasicType? || n.FunctionType? || n.TypeList?
            ==> GenExpr(st, entry, n) == Gen(Nothing, st)
  {
  }

  // ---------------------------------------------------------------------------------
  // The scope stack.

  /** `lookupCtx` finds the innermost frame that has the name. */
  lemma {:induction false} LookupInnermost(frames: seq<Frame>, name: string, k: nat)
    requires k < |frames| && name in frames[k]
    requires forall j :: 0 <= j < k ==> name !in frames[j]
    ensures LookupCtx(frames, name) == Some(frames[k][name])
    decreases k
  {
    if k > 0 {
      LookupInnermost(frames[1..], name, k - 1);
    }
  }

  /** `lookupCtx` gives null exactly when no frame has the name. */
  lemma {:induction false} LookupAbsent(frames: seq<Frame>, name: string)
    ensures LookupCtx(frames, name).None? <==> forall k :: 0 <= k < |frames| ==> name !in frames[k]
    decreases |frames|
  {
    if frames != [] && name !in frames[0] {
      LookupAbsent(frames[1..], name);
      assert forall k :: 1 <= k < |frames| ==> frames[k] == frames[1..][k - 1];
    }
  }

  /** `addToCtx` binds in the top frame: the name is found at once, other names are unaffected. */
  lemma AddThenLookup(st: GenState, name: string, b: Binding, other: string)
    requires st.frames != []
    ensures LookupCtx(AddToCtx(st, name, b).frames, name) == Some(b)
    ensures other != name ==> LookupCtx(AddToCtx(st, name, b).frames, other) == LookupCtx(st.frames, other)
  {
    var r := AddToCtx(st, name, b);
    assert r.frames[1..] == st.frames[1..];
  }

  /** A pushed frame is empty: it hides nothing, and popping it restores the state. */
  lemma PushThenPop(st: GenState, name: string)
    ensures LookupCtx(PushCtx(st).frames, name) == LookupCtx(st.frames, name)
    ensures PopCtx(PushCtx(st)) == st
  {
    assert PushCtx(st).frames[1..] == st.frames;
  }

  // ---------------------------------------------------------------------------------
  // Fresh names.

  /** Registers from different counter values are different. */
  lemma RegistersDistinct(i: int, j: int)
    requires 0 <= i && 0 <= j && i != j
    ensures RegisterName(i) != RegisterName(j)
  {
    if RegisterName(i) == RegisterName(j) {
      NameCounterInjective("%v", i, "%v", j);
    }
  }

  /** Labels with different stems (none ending in a digit) or counter values are different. */
  lemma LabelsDistinct(a: string, i: int, b: string, j: int)
    requires NoTrailingDigit(a) && NoTrailingDigit(b) && 0 <= i && 0 <= j && (a != b || i != j)
    ensures LabelName(a, i) != LabelName(b, j)
  {
    if LabelName(a, i) == LabelName(b, j) {
      NameCounterInjective(a, i, b, j);
    }
  }

  /** Two successive `getNextRegister` calls give different names, and so do two `getNextLabel` calls. */
  lemma SuccessiveNamesDistinct(st: GenState, x: string, y: string)
    requires 0 <= st.tempCounter && 0 <= st.labelCounter && NoTrailingDigit(x) && NoTrailingDigit(y)
    ensures NextRegister(st).out != NextRegister(NextRegister(st).st).out
    ensures NextLabel(st, x).out != NextLabel(NextLabel(st, x).st, y).out
  {
    RegistersDistinct(st.tempCounter, st.tempCounter + 1);
    LabelsDistinct(x, st.labelCounter, y, st.labelCounter + 1);
  }

  /**
   * A register handed out is never handed out again: any later state has moved the
   * counter past it.
   */
  lemma RegistersNeverRepeat(a: GenState, b: GenState)
    requires 0 <= a.tempCounter && Grows(NextRegister(a).st, b)
    ensures NextRegister(a).out != NextRegister(b).out
  {
    RegistersDistinct(a.tempCounter, b.tempCounter);
  }

  /** A label handed out is never handed out again, whatever stems the two calls use. */
  lemma LabelsNeverRepeat(a: GenState, x: string, b: GenState, y: string)
    requires 0 <= a.labelCounter && NoTrailingDigit(x) && NoTrailingDigit(y) && Grows(NextLabel(a, x).st, b)
    ensures NextLabel(a, x).out != NextLabel(b, y).out
  {
    LabelsDistinct(x, a.labelCounter, y, b.labelCounter);
  }

  /** The counters start at 1 and never go back, so they stay positive. */
  lemma CountersPositive(maxErrors: int, b: GenState)
    requires Grows(Initial(maxErrors), b)
    ensures 1 <= b.tempCounter && 1 <= b.labelCounter
  {
  }

  // ---------------------------------------------------------------------------------
  // Helper definitions emitted once.

  /** `definePowFunction` appends `@powi` at most once: a second call changes nothing. */
  lemma PowDefinedOnce(st: GenState)
    ensures var once := DefinePowFunction(st);
            && once.powFunctionDefined
            && once.helperFunctions == st.helperFunctions + (if st.powFunctionDefined then "" else PowiHelper)
            && DefinePowFunction(once) == once
  {
    assert st.helperFunctions + "" == st.helperFunctions;
  }

  /** `definePrintfFormat` appends a constant only when its name is new, so a repeat call changes nothing. */
  lemma FormatDefinedOnce(st: GenState, content: string, ty: string, name: string)
    ensures var once := DefinePrintfFormat(st, content, ty, name);
            && Contains(once.helperFunctions, name)
            && once.helperFunctions == st.helperFunctions + (if Contains(st.helperFunctions, name) then "" else FormatConstant(content, ty, name))
            && DefinePrintfFormat(once, content, ty, name) == once
  {
    assert st.helperFunctions + "" == st.helperFunctions;
    if !Contains(st.helperFunctions, name) {
      var rest := " = private unnamed_addr constant " + ty + " c\"" + content + "\", align 1\n";
      ContainsAppended(st.helperFunctions, name, rest);
      assert st.helperFunctions + name + rest == st.helperFunctions + FormatConstant(content, ty, name);
    }
  }

  /** The `@printf` declaration is added at most once. */
  lemma PrintfDeclaredOnce(st: GenState)
    ensures var once := DeclarePrintf(st);
            && Contains(once.helperFunctions, "@printf")
            && DeclarePrintf(once) == once
  {
    if !Contains(st.helperFunctions, "@printf") {
      PrintfDeclarationParts();
      Regrouped(st.helperFunctions, "\ndeclare i32 ", "@printf", "(i8*, ...)\n\n");
      ContainsAppended(st.helperFunctions + "\ndeclare i32 ", "@printf", "(i8*, ...)\n\n");
    }
  }

  lemma PrintfDeclarationParts()
    ensures PrintfDeclaration == "\ndeclare i32 " + "@printf" + "(i8*, ...)\n\n"
  {
  }

  lemma Regrouped(h: string, x: string, y: string, z: string)
    ensures h + x + y + z == h + (x + y + z)
  {
  }

  // ---------------------------------------------------------------------------------
  // Error reports.

  /**
   * `addErrorMessage` stores a report only while `maxErrors` is positive and its location
   * (if it has one) is new; storing it decrements `maxErrors` and records the location.
   */
  lemma AddErrorStores(st: GenState, s: Site)
    ensures var r := AddError(st, s);
            var stored := st.maxErrors > 0 && (Located(s).None? || Located(s).value !in st.reported);
            && (stored ==> r.errors == st.errors + [s] && r.maxErrors == st.maxErrors - 1
                           && r.reported == st.reported + (if Located(s).Some? then {Located(s).value} else {}))
            && (!stored ==> r == st)
  {
  }

  /** A second report at the same location adds nothing. */
  lemma OneReportPerLocation(st: GenState, s: Site, s': Site)
    requires Located(s).Some? && Located(s') == Located(s)
    ensures AddError(AddError(st, s), s') == AddError(st, s)
  {
  }

  /** From a fresh generator, at most the initial `maxErrors` reports are ever stored. */
  lemma ErrorsAtMostInitial(maxErrors: int, b: GenState)
    requires Grows(Initial(maxErrors), b)
    ensures |b.errors| <= if maxErrors < 0 then 0 else maxErrors
  {
  }

  /** Every stored location is recorded, and no two stored reports share a location. */
  predicate ReportsDistinct(st: GenState) {
    && (forall i :: 0 <= i < |st.errors| && Located(st.errors[i]).Some? ==> Located(st.errors[i]).value in st.reported)
    && (forall i, j :: 0 <= i < j < |st.errors| && Located(st.errors[i]).Some? ==> Located(st.errors[i]) != Located(st.errors[j]))
  }

  /** `addErrorMessage` keeps the stored locations distinct, and a fresh generator starts so. */
  lemma AddErrorKeepsDistinct(st: GenState, s: Site)
    requires ReportsDistinct(st)
    ensures ReportsDistinct(AddError(st, s))
    ensures ReportsDistinct(Initial(st.maxErrors))
  {
    var r := AddError(st, s);
    if r != st {
      assert r.errors == st.errors + [s];
      forall i, j | 0 <= i < j < |r.errors| && Located(r.errors[i]).Some?
        ensures Located(r.errors[i]) != Located(r.errors[j])
      {
        if j == |st.errors| {
          assert Located(r.errors[i]).value in st.reported;
        } else {
          assert r.errors[i] == st.errors[i] && r.errors[j] == st.errors[j];
        }
      }
    }
  }

  /** `getErrorMessage`: one line per stored report, in order. */
  lemma ErrorMessageLines(errors: seq<Site>, s: Site, programText: string)
    ensures ErrorMessage([], programText) == ""
    ensures ErrorMessage(errors + [s], programText) == ErrorMessage(errors, programText) + ErrorText(s, programText)
  {
    assert (errors + [s])[..|errors|] == errors;
  }

  // ---------------------------------------------------------------------------------
  // Types and operators.

  /** `convertAgudaTypetoLLVM`: Int is `i32`, Bool and Unit are `i1`, anything else is null and reported. */
  lemma LlvmTypes(st: GenState, t: Option<Type>, s: Site)
    ensures var r := ConvertTypeToLlvm(st, t, s);
            && (t == Some(TInt) ==> r == Gen(Some("i32"), st))
            && (t == Some(TBool) || t == Some(TUnit) ==> r == Gen(Some("i1"), st))
            && (t != Some(TInt) && t != Some(TBool) && t != Some(TUnit) ==> r == Gen(None, AddError(st, s)))
  {
  }

  /** `convertAstToType`: a basic type by name, a function type by its basic return type, otherwise null and reported. */
  lemma AstTypes(st: GenState, n: Node)
    ensures var r := ConvertAstToType(st, n);
            && (n.BasicType? ==> r.out == BasicTypeNamed(n.typeName))
            && (n.FunctionType? && n.returnType.BasicType? ==> r.out == BasicTypeNamed(n.returnType.typeName))
            && (r.out.None? ==> r.st == AddError(st, NodeSite(n)))
            && (r.out.Some? ==> r.st == st)
  {
  }
}
