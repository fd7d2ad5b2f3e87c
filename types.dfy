/**
 * The checker's semantic types (package `aguda.types`): a closed variant with the
 * structural `equals` and the `toString` rendering used in every diagnostic.
 */
module Types {
  import opened Text

  datatype Type =
    | TInt
    | TBool
    | TString
    | TUnit
    | TArray(elem: Type, dims: nat)
    | TFunction(from: Type, to: Type)
    | TMulti(types: seq<Type>)
    | TUndeclared

  /**
   * `equals` as each class defines it: an `instanceof` test on the other object, then
   * field-wise equality (element type and dimension count, domain and range, the lists
   * pairwise in order). Structural equality of the model is exactly this relation.
   */
  function Equals(a: Type, b: Type): (r: bool)
    ensures r <==> a == b
  {
    match a
    case TInt => b.TInt?
    case TBool => b.TBool?
    case TString => b.TString?
    case TUnit => b.TUnit?
    case TUndeclared => b.TUndeclared?
    case TArray(e, d) => b.TArray? && Equals(e, b.elem) && d == b.dims
    case TFunction(f, t) => b.TFunction? && Equals(f, b.from) && Equals(t, b.to)
    case TMulti(ts) =>
      b.TMulti? && |ts| == |b.types| && forall i :: 0 <= i < |ts| ==> Equals(ts[i], b.types[i])
  }

  /** `toString`. */
  /** `toString()`: the name a type has in messages, never empty. */
  function ToString(t: Type): (r: string)
    ensures r != ""
  {
    match t
    case TInt => "Int"
    case TBool => "Bool"
    case TString => "String"
    case TUnit => "Unit"
    case TUndeclared => "Undeclared"
    case TArray(e, d) => ToString(e) + Repeat("[]", d)
    case TFunction(f, to) => ToString(f) + " -> " + ToString(to)
    case TMulti(ts) => "(" + Join(", ", seq(|ts|, i requires 0 <= i < |ts| => ToString(ts[i]))) + ")"
  }

  /** The five leaf types render as five distinct names. */
  lemma LeafNames()
    ensures ToString(TInt) == "Int" && ToString(TBool) == "Bool" && ToString(TString) == "String"
    ensures ToString(TUnit) == "Unit" && ToString(TUndeclared) == "Undeclared"
  {
  }

  /** `"[]".repeat(d)` is d bracket pairs. */
  lemma {:induction false} RepeatBrackets(d: nat)
    ensures |Repeat("[]", d)| == 2 * d
    ensures forall i :: 0 <= i < 2 * d ==> Repeat("[]", d)[i] == if i % 2 == 0 then '[' else ']'
  {
    if d > 0 {
      RepeatBrackets(d - 1);
      var r := Repeat("[]", d);
      assert r == "[]" + Repeat("[]", d - 1);
      forall i | 0 <= i < 2 * d
        ensures r[i] == if i % 2 == 0 then '[' else ']'
      {
        if i >= 2 {
          assert r[i] == Repeat("[]", d - 1)[i - 2];
        }
      }
    }
  }

  /** An array type renders as its element type followed by one `[]` per dimension. */
  lemma ArrayRendering(e: Type, d: nat)
    ensures StartsWith(ToString(TArray(e, d)), ToString(e))
    ensures |ToString(TArray(e, d))| == |ToString(e)| + 2 * d
    ensures forall i :: 0 <= i < 2 * d ==>
      ToString(TArray(e, d))[|ToString(e)| + i] == if i % 2 == 0 then '[' else ']'
  {
    RepeatBrackets(d);
    var s := ToString(TArray(e, d));
    assert s == ToString(e) + Repeat("[]", d);
    assert s[..|ToString(e)|] == ToString(e);
  }

  /** A list of types is parenthesised; the empty list renders as `()`. */
  lemma MultiRendering(ts: seq<Type>)
    ensures var s := ToString(TMulti(ts)); |s| >= 2 && s[0] == '(' && s[|s| - 1] == ')'
    ensures ts == [] ==> ToString(TMulti(ts)) == "()"
    ensures |ts| == 1 ==> ToString(TMulti(ts)) == "(" + ToString(ts[0]) + ")"
  {
  }
}
