/**
 * The Java exceptions the checker can raise, as values. A method that would throw
 * instead returns one of these, and its caller passes it on unchanged.
 */
module Java {
  import opened Text

  datatype Exception =
    | RuntimeException(message: string)
    | IllegalStateException(message: string)
    /** `typeof(null, ..)` reaches `node.getClass()` on a null node. */
    | NullPointerException
    /** A call's argument node is cast to `Expressions`; `actual` is the class it really has. */
    | ClassCastException(actual: string)
    /** `List.get(index)` on a list of `length` elements. */
    | IndexOutOfBoundsException(index: int, length: int)
    /** A method called on a null local: the code generator's `functionCtx.getReg()`. */
    | NullDereference(call: string, variable: string)

  /** `getMessage()`; for the JVM-made exceptions only the leading part of the JVM's text. */
  function Message(e: Exception): string {
    match e
    case RuntimeException(m) => m
    case IllegalStateException(m) => m
    case NullPointerException => "Cannot invoke \"Object.getClass()\" because \"node\" is null"
    case ClassCastException(actual) => actual + " cannot be cast to class aguda.ast.Expressions"
    case IndexOutOfBoundsException(i, n) => "Index " + IntToString(i) + " out of bounds for length " + IntToString(n)
    case NullDereference(call, variable) => "Cannot invoke \"" + call + "\" because \"" + variable + "\" is null"
  }
}
