// The slice of the expression AST that the lowering decisions inspect: literals,
// operators, calls and accessors. Nodes the decisions never look inside are
// collapsed into `ObjectCreation` (nodes that always yield an object) or appear as
// an opaque `IdentifierReference`.

module Expressions {
  import UnaryExpressionNode

  /** Binary operators; `AND`/`OR` are the short-circuit operators. */
  datatype BinaryOperator =
    | BITAND | BITOR | BITXOR | SHL | SHR | USHR
    | DIV | EXP | MOD | MUL | SUB
    | EQ | GE | GT | IN | INSTANCEOF | LE | LT | NE | SHEQ | SHNE
    | ADD | AND | OR

  /** Assignment operators: plain, `+=`, and the numeric compound forms. */
  datatype AssignmentOperator =
    | ASSIGN | ASSIGN_ADD
    | ASSIGN_BITAND | ASSIGN_BITOR | ASSIGN_BITXOR | ASSIGN_SHL | ASSIGN_SHR | ASSIGN_USHR
    | ASSIGN_DIV | ASSIGN_EXP | ASSIGN_MOD | ASSIGN_MUL | ASSIGN_SUB

  /** Expression forms whose value is always a freshly created or existing object. */
  datatype ObjectForm =
    | ArrayLiteralForm | ArrayComprehensionForm | ObjectLiteralForm | RegExpLiteralForm
    | FunctionForm | ArrowFunctionForm | AsyncFunctionForm | AsyncArrowFunctionForm
    | GeneratorForm | GeneratorComprehensionForm | ClassForm
    | SuperCallForm | SuperNewForm

  datatype Expression =
    | StringLiteral(value: string)
    | TemplateLiteral(substitutions: seq<Expression>)
    | NumericLiteral(number: int)
    | BooleanLiteral(truth: bool)
    | NullLiteral
    | IdentifierReference(name: string)
    | BinaryExpression(op: BinaryOperator, left: Expression, right: Expression)
    | UnaryExpression(uop: UnaryExpressionNode.Operator, operand: Expression)
    | ConditionalExpression(test: Expression, thenExpr: Expression, otherwise: Expression)
    | CommaExpression(leading: seq<Expression>, last: Expression)
    | AssignmentExpression(aop: AssignmentOperator, target: Expression, rhs: Expression)
    | CallExpression(callee: Expression, arguments: seq<Expression>)
    | NewExpression(constructorExpr: Expression, arguments: seq<Expression>)
    | ElementAccessor(base: Expression, element: Expression)
    | PropertyAccessor(base: Expression, propertyName: string)
    | SuperElementAccessor(element: Expression)
    | SuperPropertyAccessor(propertyName: string)
    | CallSpreadElement(spread: Expression)
    | ObjectCreation(form: ObjectForm)

  /** The `Literal` node family: string, numeric, boolean and null literals. */
  predicate IsLiteral(e: Expression)
  {
    e.StringLiteral? || e.NumericLiteral? || e.BooleanLiteral? || e.NullLiteral?
  }

  /** A numeric literal is an `int` literal when its value fits a signed 32-bit integer. */
  predicate IsInt(value: int)
  {
    -0x8000_0000 <= value < 0x8000_0000
  }
}
