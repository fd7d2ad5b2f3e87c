/**
 * What the `print(indent)` methods of the list-shaped and branching AST nodes promise,
 * proved about the reference rendering `Printer.Print`.
 */
module PrinterFacts {
  import opened Wrappers
  import opened Text
  import opened Types
  import opened Ast
  import opened Printer

  /** Printing a list and then one more item: the item's rendering comes last. */
  lemma {:induction false} PrintEachSnoc(items: seq<Node>, indent: nat)
    requires items != []
    ensures PrintEach(items, indent) == PrintEach(items[..|items| - 1], indent) + [Print(items[|items| - 1], indent)]
    decreases |items|
  {
    if |items| > 1 {
      PrintEachSnoc(items[1..], indent);
      assert items[1..][..|items[1..]| - 1] == items[..|items| - 1][1..];
    }
  }

  /**
   * `Expressions.print`: nothing for an empty list, one element with no separator, and
   * otherwise the first element, the separator (followed by a space after `,` and by a
   * newline after anything else) and the rest, in order.
   */
  lemma ExpressionsOrder(n: Node, indent: nat)
    requires n.Exprs?
    ensures n.items == [] ==> Print(n, indent) == ""
    ensures |n.items| == 1 ==> Print(n, indent) == Print(n.items[0], indent)
    ensures |n.items| >= 2 ==>
              Print(n, indent) == Print(n.items[0], indent) + n.separator + (if n.separator == "," then " " else "\n")
                                  + Print(n.(items := n.items[1..]), indent)
  {
  }

  /** The separator goes between elements and never after the last one. */
  lemma ExpressionsLast(n: Node, indent: nat)
    requires n.Exprs? && |n.items| >= 2
    ensures var k := |n.items| - 1;
            Print(n, indent) == Print(n.(items := n.items[..k]), indent) + SeparatorText(n.separator) + Print(n.items[k], indent)
  {
    var k := |n.items| - 1;
    PrintEachSnoc(n.items, indent);
    JoinSnoc(SeparatorText(n.separator), PrintEach(n.items[..k], indent), Print(n.items[k], indent));
  }

  /**
   * `TypeList.print`: a single type is printed as itself; any other list is the indent,
   * then the types in parentheses, so the empty list prints the indent and `()`.
   */
  lemma TypeListForms(n: Node, indent: nat)
    requires n.TypeList?
    ensures |n.types| == 1 ==> Print(n, indent) == Print(n.types[0], indent)
    ensures n.types == [] ==> Print(n, indent) == Spaces(indent) + "()"
    ensures |n.types| != 1 ==>
              var s := Print(n, indent);
              && StartsWith(s, Spaces(indent) + "(") && EndsWith(s, ")")
              && s[indent + 1..|s| - 1] == Join(", ", PrintEach(n.types, 0))
  {
    if |n.types| != 1 {
      var s := Print(n, indent);
      var inner := Join(", ", PrintEach(n.types, 0));
      assert s == Spaces(indent) + "(" + inner + ")";
      assert (Spaces(indent) + "(" + inner + ")")[..indent + 1] == Spaces(indent) + "(";
    }
  }

  /**
   * `ArrayType.print`: the base rendering followed by one `[]` per dimension, so the
   * output is two characters longer per dimension and just the base with none.
   */
  lemma ArrayTypeForm(n: Node, indent: nat)
    requires n.ArrayType?
    ensures var s := Print(n, indent);
            var b := Print(n.base, indent);
            && StartsWith(s, b)
            && |s| == |b| + 2 * n.dimensions
            && (forall i :: 0 <= i < 2 * n.dimensions ==> s[|b| + i] == if i % 2 == 0 then '[' else ']')
            && (n.dimensions == 0 ==> s == b)
  {
    var b := Print(n.base, indent);
    RepeatBrackets(n.dimensions);
    assert Print(n, indent)[..|b|] == b;
  }

  lemma Prefix(x: string, y: string)
    ensures StartsWith(x + y, x)
  {
    assert (x + y)[..|x|] == x;
  }

  lemma PrefixExtended(s: string, p: string, t: string)
    requires StartsWith(s, p)
    ensures StartsWith(s + t, p)
  {
    assert (s + t)[..|p|] == s[..|p|];
  }

  lemma Suffix(x: string, y: string)
    ensures EndsWith(x + y, y)
  {
    assert (x + y)[|x|..] == y;
  }

  /**
   * `IfExpression.print`: the indent and `if ` first, and at the end `else Unit` when
   * there is no else branch and `else ` and the branch otherwise.
   */
  lemma IfForm(n: Node, indent: nat)
    requires n.If?
    ensures StartsWith(Print(n, indent), Spaces(indent) + "if ")
    ensures n.elseBranch.None? ==> EndsWith(Print(n, indent), "else Unit")
    ensures n.elseBranch.Some? ==> EndsWith(Print(n, indent), "else " + Print(n.elseBranch.value, indent))
  {
    var start := Spaces(indent) + "if ";
    var head := start + Print(n.cond, indent) + " then " + Print(n.thenBranch, indent) + "\n" + Spaces(indent);
    var last := match n.elseBranch case None => "else Unit" case Some(e) => "else " + Print(e, indent);
    assert Print(n, indent) == head + last;
    Prefix(start, Print(n.cond, indent));
    PrefixExtended(start + Print(n.cond, indent), start, " then ");
    PrefixExtended(start + Print(n.cond, indent) + " then ", start, Print(n.thenBranch, indent));
    PrefixExtended(start + Print(n.cond, indent) + " then " + Print(n.thenBranch, indent), start, "\n");
    PrefixExtended(start + Print(n.cond, indent) + " then " + Print(n.thenBranch, indent) + "\n", start, Spaces(indent));
    PrefixExtended(head, start, last);
    Suffix(head, last);
  }

  /**
   * `IdList.print`: the name, then the parameters (printed at indent 0) between
   * parentheses with `, ` between them; no parameters give the name and `()`.
   */
  lemma IdListForm(l: IdList)
    ensures l.ids == [] ==> PrintIdList(l) == l.id + "()"
    ensures var s := PrintIdList(l);
            && StartsWith(s, l.id + "(") && EndsWith(s, ")")
            && s[|l.id| + 1..|s| - 1] == Join(", ", PrintEach(l.ids, 0))
  {
    var inner := Join(", ", PrintEach(l.ids, 0));
    assert (l.id + "(" + inner + ")")[..|l.id| + 1] == l.id + "(";
  }

  /**
   * `UnaryOp.print`: the indent, then `0 - ` for a minus and the operator itself
   * otherwise, then the operand printed at the same indent.
   */
  lemma UnaryForm(n: Node, indent: nat)
    requires n.Unary?
    ensures var s := Print(n, indent);
            var head := Spaces(indent) + (if n.op == "-" then "0 - " else n.op);
            && StartsWith(s, head) && StartsWith(s, Spaces(indent))
            && EndsWith(s, Print(n.operand, indent))
            && |s| == |head| + |Print(n.operand, indent)|
  {
    var head := Spaces(indent) + (if n.op == "-" then "0 - " else n.op);
    var s := Print(n, indent);
    var operand := Print(n.operand, indent);
    assert s == head + operand;
    assert (head + operand)[..|head|] == head;
    assert head[..indent] == Spaces(indent);
    assert (head + operand)[|head|..] == operand;
  }

  /**
   * `ArrayAccess.print`: the indent and the array, then one bracketed index per index in
   * order (an `Expressions` index like any other); with no index, just the prefix.
   */
  lemma ArrayAccessForm(n: Node, indent: nat)
    requires n.ArrayAccess?
    ensures var pieces := Bracketed(PrintEach(n.indices, indent));
            && |pieces| == |n.indices|
            && Print(n, indent) == Spaces(indent) + Print(n.arrayExpr, indent) + Concat(pieces)
            && (forall k :: 0 <= k < |n.indices| ==> pieces[k] == "[" + Print(n.indices[k], indent) + "]")
            && (n.indices == [] ==> Print(n, indent) == Spaces(indent) + Print(n.arrayExpr, indent))
  {
    PrintArrayAccessShape(n, indent);
    forall k | 0 <= k < |n.indices|
      ensures Bracketed(PrintEach(n.indices, indent))[k] == "[" + Print(n.indices[k], indent) + "]"
    {
      PrintEachAt(n.indices, indent, k);
    }
  }
}
