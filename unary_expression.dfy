// The unary-expression AST node: operator metadata and the completion flag
// the code generator consults to decide whether a value must be kept.

module UnaryExpressionNode {

  /** The unary operators of ECMAScript, in declaration order. */
  datatype Operator =
    | DELETE | VOID | TYPEOF | PRE_INC | PRE_DEC | POST_INC | POST_DEC
    | POS | NEG | BITNOT | NOT

  /** Metadata attached to each operator constant: its source token and its fixity. */
  datatype OperatorInfo = OperatorInfo(name: string, postfix: bool)

  /** The table of enum constants; only the two postfix update operators carry `true`. */
  function Info(op: Operator): OperatorInfo
  {
    match op
    case DELETE => OperatorInfo("delete", false)
    case VOID => OperatorInfo("void", false)
    case TYPEOF => OperatorInfo("typeof", false)
    case PRE_INC => OperatorInfo("++", false)
    case PRE_DEC => OperatorInfo("--", false)
    case POST_INC => OperatorInfo("++", true)
    case POST_DEC => OperatorInfo("--", true)
    case POS => OperatorInfo("+", false)
    case NEG => OperatorInfo("-", false)
    case BITNOT => OperatorInfo("~", false)
    case NOT => OperatorInfo("!", false)
  }

  predicate IsUpdate(op: Operator)
  {
    op == PRE_INC || op == PRE_DEC || op == POST_INC || op == POST_DEC
  }

  /** The operator's source token; it is never empty. */
  function Name(op: Operator): (r: string)
    ensures |r| > 0
    ensures (|r| == 2 && r[0] == r[1]) <==> IsUpdate(op)
  {
    Info(op).name
  }

  /** `isPostfix`: true exactly for the two postfix update operators. */
  function IsPostfix(op: Operator): (b: bool)
    ensures b <==> op == POST_INC || op == POST_DEC
  {
    Info(op).postfix
  }

  /** The operator's token and fixity together identify the operator uniquely. */
  lemma InfoDeterminesOperator(a: Operator, b: Operator)
    ensures Info(a) == Info(b) <==> a == b
  {
  }

  /** The prefix and postfix forms of `++`/`--` share their token and differ only in fixity. */
  lemma UpdateFormsShareName(a: Operator, b: Operator)
    ensures (Name(a) == Name(b) && a != b) <==>
            (IsUpdate(a) && IsUpdate(b) && IsPostfix(a) != IsPostfix(b) && Name(a) == Name(b))
  {
  }

  /**
   * A unary expression node over operand expressions of type `E`. The operator and
   * operand are fixed at construction; only the completion flag is mutable.
   */
  class UnaryExpression<E> {
    const operator: Operator
    const operand: E
    var completion: bool

    /** A fresh node keeps its arguments and uses its completion value. */
    constructor (op: Operator, e: E)
      ensures operator == op && operand == e
      ensures completion
    {
      operator := op;
      operand := e;
      completion := true;
    }

    function GetOperator(): Operator
    {
      operator
    }

    function GetOperand(): E
    {
      operand
    }

    function HasCompletion(): bool
      reads this
    {
      completion
    }

    /**
     * Marks the completion value as unused and returns the same node. The resulting
     * state does not depend on the previous one, so a second call changes nothing.
     */
    method EmptyCompletion() returns (r: UnaryExpression<E>)
      modifies this
      ensures r == this
      ensures !HasCompletion()
    {
      completion := false;
      r := this;
    }
  }

  /** A fresh node reports a completion; after `EmptyCompletion`, once or twice, it does not. */
  method EmptyCompletionIdempotent<E>(op: Operator, e: E) returns (once: bool, twice: bool)
    ensures !once && !twice
  {
    var node := new UnaryExpression(op, e);
    assert node.HasCompletion();
    var r := node.EmptyCompletion();
    once := r.HasCompletion();
    var r2 := r.EmptyCompletion();
    twice := r2.HasCompletion();
    assert r2 == node;
  }
}
