/**
 * The text the code generator emits, kept as a sequence of pieces. Each piece is one
 * LLVM instruction (without its leading tab or trailing newline) or one piece of the
 * layout the generator puts between instructions; `Render` gives the exact Java text.
 * Where the Java code may hold `null` (a register, a type name, a value) the piece
 * holds an option, rendered as `null` the way Java string concatenation renders it.
 */
module Ir {
  import opened Wrappers
  import opened Text

  datatype Piece =
    | Nl
    | Tab
    | Semi
    /** `null` where a null code string is formatted with `%s`. */
    | NullText
    /** `l:` */
    | Head(name: string)
    /** `br label %l` */
    | Br(target: string)
    /** `br i1 v, label %tt, label %ff` */
    | CondBr(cond: Option<string>, onTrue: string, onFalse: string)
    /** `r = icmp pred ty a, b` */
    | Icmp(reg: string, pred: string, ty: Option<string>, a: Option<string>, b: Option<string>)
    /** `r = load ty, ty* ptr` */
    | Load(reg: string, ty: Option<string>, ptr: Option<string>)
    /** `r = sub ty 0, v` */
    | Sub0(reg: string, ty: Option<string>, v: Option<string>)
    /** `r = xor ty 1, v` */
    | XorOne(reg: string, ty: Option<string>, v: Option<string>)
    /** `r = phi i1 [ true, %tt ], [ false, %ff ]` */
    | BoolPhi(reg: string, onTrue: string, onFalse: string)
    /** `r = call ty @powi(ty a, ty b)` */
    | PowCall(reg: string, ty: Option<string>, a: Option<string>, b: Option<string>)
    /** `r = op ty a, b` */
    | BinInstr(reg: string, op: string, ty: Option<string>, a: Option<string>, b: Option<string>)
    /** `ptr = alloca ty` */
    | Alloca(slot: string, ty: Option<string>)
    /** `store ty v, ty* ptr` */
    | Store(ty: Option<string>, v: Option<string>, ptr: Option<string>)
    /** `r = phi ty [ tv, %tl ], [ ev, %el ]` */
    | Phi(reg: string, ty: Option<string>, thenValue: string, thenLabel: string, elseValue: string, elseLabel: string)
    /** `r = call ty @f(args)` */
    | Invoke(reg: string, ty: Option<string>, name: string, args: seq<string>)
    /** `r = getelementptr inbounds arr, arr* g, i32 0, i32 0` */
    | Gep(reg: string, arrayType: string, global: string)
    /** `call i32 (i8*, ...) @printf(i8* fmt, i32 v)` */
    | PrintfInt(fmt: string, v: Option<string>)
    /** `call i32 (i8*, ...) @printf(i8* s)` */
    | PrintfText(str: string)
    /** `r = icmp eq i1 v, 1` */
    | IsTrue(reg: string, v: Option<string>)
    /** `r = select i1 c, i8* <"true">, i8* <"false">` */
    | SelectBoolText(reg: string, test: string)

  type Code = seq<Piece>

  function PieceText(p: Piece): string {
    match p
    case Nl => "\n"
    case Tab => "\t"
    case Semi => ";"
    case NullText => "null"
    case Head(l) => l + ":"
    case Br(l) => "br label %" + l
    case CondBr(c, t, f) => "br i1 " + J(c) + ", label %" + t + ", label %" + f
    case Icmp(r, pred, ty, a, b) => r + " = icmp " + pred + " " + J(ty) + " " + J(a) + ", " + J(b)
    case Load(r, ty, ptr) => r + " = load " + J(ty) + ", " + J(ty) + "* " + J(ptr)
    case Sub0(r, ty, v) => r + " = sub " + J(ty) + " 0, " + J(v)
    case XorOne(r, ty, v) => r + " = xor " + J(ty) + " 1, " + J(v)
    case BoolPhi(r, t, f) => r + " = phi i1 [ true, %" + t + " ], [ false, %" + f + " ]"
    case PowCall(r, ty, a, b) =>
      r + " = call " + J(ty) + " @powi(" + J(ty) + " " + J(a) + ", " + J(ty) + " " + J(b) + ")"
    case BinInstr(r, op, ty, a, b) => r + " = " + op + " " + J(ty) + " " + J(a) + ", " + J(b)
    case Alloca(ptr, ty) => ptr + " = alloca " + J(ty)
    case Store(ty, v, ptr) => "store " + J(ty) + " " + J(v) + ", " + J(ty) + "* " + J(ptr)
    case Phi(r, ty, tv, tl, ev, el) => r + " = phi " + J(ty) + " [ " + tv + ", %" + tl + " ], [ " + ev + ", %" + el + " ]"
    case Invoke(r, ty, name, args) => r + " = call " + J(ty) + " @" + name + "(" + Join(", ", args) + ")"
    case Gep(r, arr, g) => r + " = getelementptr inbounds " + arr + ", " + arr + "* " + g + ", i32 0, i32 0"
    case PrintfInt(fmt, v) => "call i32 (i8*, ...) @printf(i8* " + fmt + ", i32 " + J(v) + ")"
    case PrintfText(s) => "call i32 (i8*, ...) @printf(i8* " + s + ")"
    case IsTrue(r, v) => r + " = icmp eq i1 " + J(v) + ", 1"
    case SelectBoolText(r, c) =>
      r + " = select i1 " + c + ", i8* getelementptr ([5 x i8], [5 x i8]* @.str.true, i32 0, i32 0), "
      + "i8* getelementptr ([6 x i8], [6 x i8]* @.str.false, i32 0, i32 0)"
  }

  /** The Java text of a piece of code. */
  function Render(code: Code): (r: string)
    ensures code == [] ==> r == ""
  {
    if code == [] then "" else Render(code[..|code| - 1]) + PieceText(code[|code| - 1])
  }

  lemma {:induction false} RenderAppend(a: Code, b: Code)
    ensures Render(a + b) == Render(a) + Render(b)
    decreases |b|
  {
    if b == [] {
      assert a + b == a;
    } else {
      var b' := b[..|b| - 1];
      var t := PieceText(b[|b| - 1]);
      assert (a + b)[..|a + b| - 1] == a + b';
      assert (a + b)[|a + b| - 1] == b[|b| - 1];
      RenderAppend(a, b');
      calc {
        Render(a + b);
        Render(a + b') + t;
        Render(a) + Render(b') + t;
        { Associative(Render(a), Render(b'), t); }
        Render(a) + (Render(b') + t);
        Render(a) + Render(b);
      }
    }
  }

  /** Concatenation regroups; stated apart so that proofs about `Render` stay small. */
  lemma Associative(x: string, y: string, z: string)
    ensures x + y + z == x + (y + z)
  {
  }

  /** `code != null ? code : ""` */
  function OrEmpty(code: Option<Code>): Code {
    match code
    case Some(c) => c
    case None => []
  }

  /** `String.format("%s", code)`: a null code string is the text `null`. */
  function OrNullText(code: Option<Code>): Code {
    match code
    case Some(c) => c
    case None => [NullText]
  }

  /** `code.append(c).append(sep)` only when `c` is not null. */
  function Then(code: Option<Code>, sep: Code): Code {
    match code
    case Some(c) => c + sep
    case None => []
  }

  /** The jump targets of every `br` in a piece of code. */
  function Targets(code: Code): (r: set<string>)
  {
    if code == [] then {} else Targets(code[..|code| - 1]) + PieceTargets(code[|code| - 1])
  }

  /** The labels one piece jumps to. */
  function PieceTargets(p: Piece): set<string> {
    match p
    case Br(l) => {l}
    case CondBr(_, t, f) => {t, f}
    case _ => {}
  }

  /** The labels that a piece of code defines (`l:`). */
  function Heads(code: Code): (r: set<string>)
  {
    if code == [] then {}
    else
      Heads(code[..|code| - 1]) +
      match code[|code| - 1]
      case Head(l) => {l}
      case _ => {}
  }

  /** Code without a `br` jumps nowhere. */
  lemma {:induction false} NoJumps(code: Code)
    requires forall k :: 0 <= k < |code| ==> !code[k].Br? && !code[k].CondBr?
    ensures Targets(code) == {}
    decreases |code|
  {
    if code != [] {
      NoJumps(code[..|code| - 1]);
    }
  }

  /** The jump targets of one piece of code. */
  lemma TargetsOne(p: Piece)
    ensures Targets([p]) == PieceTargets(p)
  {
    assert [p][..0] == [];
  }

  lemma {:induction false} TargetsAppend(a: Code, b: Code)
    ensures Targets(a + b) == Targets(a) + Targets(b)
    ensures Heads(a + b) == Heads(a) + Heads(b)
    decreases |b|
  {
    if b == [] {
      assert a + b == a;
    } else {
      assert (a + b)[..|a + b| - 1] == a + b[..|b| - 1];
      TargetsAppend(a, b[..|b| - 1]);
    }
  }
}
