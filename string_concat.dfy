// Lowering of chains of `+` that are known to build strings: recognising them,
// folding all-literal chains into one constant, and otherwise collecting the
// operands of a single dynamic concatenation whose arity is counted up front.

module StringConcat {
  import opened Expressions
  import ValueTypes

  /** A call site takes at most 255 JVM arguments, three of which the bootstrap uses. */
  const MAX_JVM_ARGUMENTS: nat := 255
  const BOOTSTRAP_ARGUMENTS: nat := 3
  const MAX_DYN_ARGUMENTS: nat := MAX_JVM_ARGUMENTS - BOOTSTRAP_ARGUMENTS

  /** Syntactically a string: a string literal or an untagged template literal. */
  predicate IsString(e: Expression)
  {
    e.StringLiteral? || e.TemplateLiteral?
  }

  /** The size of the binary-operator skeleton of an expression. */
  function Size(e: Expression): nat
  {
    if e.BinaryExpression? then 1 + Size(e.left) + Size(e.right) else 1
  }

  // ---------------------------------------------------------------------------
  // Recognising string concatenations
  // ---------------------------------------------------------------------------

  /**
   * A `+` node whose left spine of `+` nodes reaches a node with a syntactic string
   * operand: such a node is certain to produce a string.
   */
  predicate IsStringConcat(e: Expression)
  {
    e.BinaryExpression? && e.op == ADD &&
    (IsString(e.left) || IsString(e.right) || IsStringConcat(e.left))
  }

  /** `isStringConcat`: walks the left spine with a cursor. */
  method CheckStringConcat(node: Expression) returns (b: bool)
    requires node.BinaryExpression?
    ensures b == IsStringConcat(node)
  {
    var binary := node;
    while true
      invariant binary.BinaryExpression?
      invariant IsStringConcat(binary) == IsStringConcat(node)
      decreases Size(binary)
    {
      if binary.op != ADD {
        return false;
      }
      var left := binary.left;
      if IsString(left) || IsString(binary.right) {
        return true;
      }
      if !left.BinaryExpression? {
        return false;
      }
      binary := left;
    }
  }

  /** A string-concatenation node is statically typed `String`. */
  lemma {:induction false} StringConcatTypedString(e: Expression)
    requires IsStringConcat(e)
    ensures ValueTypes.TypeOf(e) == ValueTypes.String
  {
    if !IsString(e.left) && !IsString(e.right) {
      StringConcatTypedString(e.left);
    }
  }

  // ---------------------------------------------------------------------------
  // Constant folding
  // ---------------------------------------------------------------------------

  /** A tree of `+` nodes whose leaves are all string literals. */
  predicate IsConstantConcat(e: Expression)
    decreases e, 0
  {
    e.BinaryExpression? && e.op == ADD && ConstantOperand(e.left) && ConstantOperand(e.right)
  }

  predicate ConstantOperand(e: Expression)
    decreases e, 1
  {
    e.StringLiteral? || IsConstantConcat(e)
  }

  /**
   * `isConstantStringConcat`: a cursor loop that descends into whichever side is
   * still a `+` node, checking the right side recursively when both sides are.
   */
  method CheckConstantConcat(node: Expression) returns (b: bool)
    requires node.BinaryExpression?
    ensures b == IsConstantConcat(node)
    decreases Size(node)
  {
    var n := node;
    while true
      invariant n.BinaryExpression? && Size(n) <= Size(node)
      invariant IsConstantConcat(n) == IsConstantConcat(node)
      decreases Size(n)
    {
      if n.op != ADD {
        return false;
      }
      var left := n.left;
      var right := n.right;
      if left.StringLiteral? && right.StringLiteral? {
        return true;
      } else if left.BinaryExpression? && right.StringLiteral? {
        n := left;
      } else if left.StringLiteral? && right.BinaryExpression? {
        n := right;
      } else if left.BinaryExpression? && right.BinaryExpression? {
        var rightConstant := CheckConstantConcat(right);
        if !rightConstant {
          return false;
        }
        n := left;
      } else {
        assert !ConstantOperand(left) || !ConstantOperand(right) by {
          assert !IsConstantConcat(left) || !IsConstantConcat(right);
        }
        return false;
      }
    }
  }

  /** The string-literal leaves of a constant tree, left to right. */
  function Leaves(e: Expression): seq<string>
    requires ConstantOperand(e)
  {
    if e.StringLiteral? then [e.value]
    else
      assert IsConstantConcat(e);
      Leaves(e.left) + Leaves(e.right)
  }

  function ConcatAll(ss: seq<string>): string
  {
    if |ss| == 0 then "" else ss[0] + ConcatAll(ss[1..])
  }

  lemma {:induction false} ConcatAllAppend(a: seq<string>, b: seq<string>)
    ensures ConcatAll(a + b) == ConcatAll(a) + ConcatAll(b)
  {
    if |a| == 0 {
      assert a + b == b;
    } else {
      assert (a + b)[1..] == a[1..] + b;
      ConcatAllAppend(a[1..], b);
    }
  }

  /**
   * `stringConcat(node, sb)`: appends the literal leaves to the builder by recursion;
   * the builder ends up extended by the left-to-right concatenation of the leaves.
   */
  function {:induction false} AppendLeaves(e: Expression, sb: string): (r: string)
    requires ConstantOperand(e)
    ensures r == sb + ConcatAll(Leaves(e))
  {
    if e.StringLiteral? then
      sb + e.value
    else
      assert IsConstantConcat(e);
      var afterLeft := AppendLeaves(e.left, sb);
      var r := AppendLeaves(e.right, afterLeft);
      ConcatAllAppend(Leaves(e.left), Leaves(e.right));
      r
  }

  /** `'a' + 'b'` folds to `"ab"`. */
  lemma FoldTwoLiterals()
    ensures AppendLeaves(BinaryExpression(ADD, StringLiteral("a"), StringLiteral("b")), "") == "ab"
  {
    assert ConcatAll(["b"]) == "b";
    assert ConcatAll(["a", "b"]) == "a" + ConcatAll(["b"]);
  }

  // ---------------------------------------------------------------------------
  // Dynamic concatenation operands
  // ---------------------------------------------------------------------------

  /**
   * The operands a dynamic concatenation receives, left to right: nested string
   * concatenations are spliced in and empty string literals are dropped.
   */
  function Pieces(x: Expression): seq<Expression>
  {
    if x.BinaryExpression? && IsStringConcat(x) then Pieces(x.left) + Pieces(x.right)
    else if x == StringLiteral("") then []
    else [x]
  }

  /** The string each operand contributes, with `leafString` standing for ToString of a non-literal value. */
  function OperandString(x: Expression, leafString: Expression -> string): string
  {
    if x.StringLiteral? then x.value else leafString(x)
  }

  /** The string a concatenation tree evaluates to, node by node. */
  function ConcatValue(x: Expression, leafString: Expression -> string): string
  {
    if x.BinaryExpression? && IsStringConcat(x) then
      ConcatValue(x.left, leafString) + ConcatValue(x.right, leafString)
    else OperandString(x, leafString)
  }

  function OperandStrings(xs: seq<Expression>, leafString: Expression -> string): (r: seq<string>)
    ensures |r| == |xs|
    ensures forall i :: 0 <= i < |xs| ==> r[i] == OperandString(xs[i], leafString)
  {
    seq(|xs|, i requires 0 <= i < |xs| => OperandString(xs[i], leafString))
  }

  /** Dropping empty literals and flattening keeps the string the tree evaluates to. */
  lemma {:induction false} PiecesPreserveValue(x: Expression, leafString: Expression -> string)
    ensures ConcatAll(OperandStrings(Pieces(x), leafString)) == ConcatValue(x, leafString)
  {
    if x.BinaryExpression? && IsStringConcat(x) {
      PiecesPreserveValue(x.left, leafString);
      PiecesPreserveValue(x.right, leafString);
      var l := Pieces(x.left);
      var r := Pieces(x.right);
      assert OperandStrings(l + r, leafString) ==
             OperandStrings(l, leafString) + OperandStrings(r, leafString);
      ConcatAllAppend(OperandStrings(l, leafString), OperandStrings(r, leafString));
    } else if x == StringLiteral("") {
    } else {
      assert OperandStrings([x], leafString) == [OperandString(x, leafString)];
      assert ConcatAll([OperandString(x, leafString)]) == OperandString(x, leafString) + ConcatAll([]);
    }
  }

  /** Pieces of a list of expressions, processed from the last to the first. */
  function ReversedPieces(list: seq<Expression>): seq<Expression>
  {
    if |list| == 0 then [] else Pieces(list[|list| - 1]) + ReversedPieces(list[..|list| - 1])
  }

  /**
   * `countStringConcats` on a string-concatenation node: walks the left spine adding
   * the counts of the right operands until a node with a syntactic string operand.
   */
  method CountStringConcats(node: Expression) returns (c: nat)
    requires IsStringConcat(node)
    ensures c == |Pieces(node)|
    decreases Size(node), 1
  {
    c := 0;
    var binary := node;
    while true
      invariant IsStringConcat(binary) && Size(binary) <= Size(node)
      invariant c + |Pieces(binary)| == |Pieces(node)|
      decreases Size(binary)
    {
      var left := binary.left;
      var right := binary.right;
      if IsString(left) || IsString(right) {
        var cl := CountOperand(left, Size(node));
        var cr := CountOperand(right, Size(node));
        return c + cl + cr;
      }
      var cr := CountOperand(right, Size(node));
      c := c + cr;
      binary := left;
    }
  }

  /** `countStringConcats` on an operand: nested concatenations recurse, `""` counts 0. */
  method CountOperand(x: Expression, bound: nat) returns (c: nat)
    requires Size(x) < bound
    ensures c == |Pieces(x)|
    decreases bound, 0
  {
    if x.BinaryExpression? {
      var concat := CheckStringConcat(x);
      if concat {
        c := CountStringConcats(x);
        return;
      }
    }
    if x.StringLiteral? && x.value == "" {
      return 0;
    }
    return 1;
  }

  /**
   * `stringConcatWith` on a string-concatenation node: collects the right operands of
   * the left spine, emits the two operands of the node that stops the walk, then the
   * collected operands in source order.
   */
  method StringConcatWith(node: Expression) returns (operands: seq<Expression>)
    requires IsStringConcat(node)
    ensures operands == Pieces(node)
    decreases Size(node), 2
  {
    var binary, list := LeftSpine(node);
    var lops := StringConcatOperand(binary.left, Size(node));
    var rops := StringConcatOperand(binary.right, Size(node));
    operands := lops + rops;
    assert operands == Pieces(binary);
    operands := AppendOperands(operands, list, Size(node));
  }

  /**
   * The walk down the left spine: the node with a syntactic string operand that stops
   * it, and the right operands passed on the way, nearest first.
   */
  method LeftSpine(node: Expression) returns (binary: Expression, list: seq<Expression>)
    requires IsStringConcat(node)
    ensures IsStringConcat(binary) && Size(binary) <= Size(node)
    ensures IsString(binary.left) || IsString(binary.right)
    ensures Pieces(node) == Pieces(binary) + ReversedPieces(list)
    ensures forall k :: 0 <= k < |list| ==> Size(list[k]) < Size(node)
  {
    list := [];
    binary := node;
    while true
      invariant IsStringConcat(binary) && Size(binary) <= Size(node)
      invariant Pieces(node) == Pieces(binary) + ReversedPieces(list)
      invariant forall k :: 0 <= k < |list| ==> Size(list[k]) < Size(node)
      decreases Size(binary)
    {
      var left := binary.left;
      var right := binary.right;
      if IsString(left) || IsString(right) {
        return;
      }
      SpineStep(node, binary, list);
      binary := left;
      list := list + [right];
    }
  }

  /** Stepping down the left spine moves the right operand's pieces to the collected ones. */
  lemma SpineStep(node: Expression, binary: Expression, list: seq<Expression>)
    requires IsStringConcat(binary) && Pieces(node) == Pieces(binary) + ReversedPieces(list)
    ensures Pieces(node) == Pieces(binary.left) + ReversedPieces(list + [binary.right])
  {
    var right := binary.right;
    assert (list + [right])[..|list|] == list;
    assert ReversedPieces(list + [right]) == Pieces(right) + ReversedPieces(list);
    assert Pieces(binary) == Pieces(binary.left) + Pieces(right);
    AppendAssoc(Pieces(binary.left), Pieces(right), ReversedPieces(list));
  }

  lemma AppendAssoc(a: seq<Expression>, b: seq<Expression>, c: seq<Expression>)
    ensures (a + b) + c == a + (b + c)
  {
  }

  /** The collected operands emitted from the last collected to the first. */
  method AppendOperands(operands0: seq<Expression>, list: seq<Expression>, bound: nat)
    returns (operands: seq<Expression>)
    requires forall k :: 0 <= k < |list| ==> Size(list[k]) < bound
    ensures operands == operands0 + ReversedPieces(list)
    decreases bound, 1
  {
    operands := operands0;
    var i := |list|;
    assert list[..i] == list;
    while i > 0
      invariant 0 <= i <= |list|
      invariant operands + ReversedPieces(list[..i]) == operands0 + ReversedPieces(list)
    {
      assert list[..i][..i - 1] == list[..i - 1];
      var eops := StringConcatOperand(list[i - 1], bound);
      operands := operands + eops;
      i := i - 1;
    }
    assert list[..0] == [];
  }

  /** `stringConcatWith` on one operand: `""` pushes nothing, nested concatenations splice in. */
  method StringConcatOperand(x: Expression, bound: nat) returns (operands: seq<Expression>)
    requires Size(x) < bound
    ensures operands == Pieces(x)
    decreases bound, 0
  {
    if x.StringLiteral? {
      return if x.value == "" then [] else [x];
    }
    if x.TemplateLiteral? {
      return [x];
    }
    if x.BinaryExpression? {
      var concat := CheckStringConcat(x);
      if concat {
        operands := StringConcatWith(x);
        return;
      }
    }
    return [x];
  }

  // ---------------------------------------------------------------------------
  // The lowering decision
  // ---------------------------------------------------------------------------

  datatype ConcatPlan =
    | FoldedConstant(value: string)
    | EmptyString
    | SingleOperand(operand: Expression)
    | DynamicConcat(arity: nat, operands: seq<Expression>)
    | NotHandled

  /**
   * `stringConcat(binary, ...)`: an all-literal tree becomes one constant; otherwise
   * the operands are counted and, if they fit one dynamic call, collected; beyond
   * the argument limit the generic `+` lowering is used instead.
   */
  method PlanStringConcat(node: Expression) returns (plan: ConcatPlan)
    requires IsStringConcat(node)
    ensures plan.FoldedConstant? <==> IsConstantConcat(node)
    ensures plan.FoldedConstant? ==> plan.value == ConcatAll(Leaves(node))
    ensures plan.NotHandled? <==> !IsConstantConcat(node) && |Pieces(node)| > MAX_DYN_ARGUMENTS
    ensures plan.EmptyString? ==> Pieces(node) == []
    ensures plan.SingleOperand? ==> Pieces(node) == [plan.operand]
    ensures plan.DynamicConcat? ==>
              plan.arity == |plan.operands| && plan.operands == Pieces(node) &&
              2 <= plan.arity <= MAX_DYN_ARGUMENTS
  {
    var constant := CheckConstantConcat(node);
    if constant {
      return FoldedConstant(AppendLeaves(node, ""));
    }
    var strings := CountStringConcats(node);
    if strings > MAX_DYN_ARGUMENTS {
      return NotHandled;
    }
    if strings == 0 {
      return EmptyString;
    }
    var operands := StringConcatWith(node);
    if strings == 1 {
      return SingleOperand(operands[0]);
    }
    return DynamicConcat(strings, operands);
  }
}
