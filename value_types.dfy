// Static value-type inference for expressions, and its soundness with respect to
// the kinds of values the expressions can produce at run time.

module ValueTypes {
  import V = Values
  import opened Expressions

  /** The compiler's static value types. */
  datatype ValType =
    | Any | Undefined | Null | Boolean | Number | Number_int | Number_uint | String | Object

  predicate IsNumeric(t: ValType)
  {
    t == Number || t == Number_int || t == Number_uint
  }

  predicate IsPrimitive(t: ValType)
  {
    t != Any && t != Object
  }

  /**
   * The static type of a binary expression from those of its operands: bitwise and
   * shift operators give 32-bit integers, arithmetic numbers, `+` a string or a number
   * when the operands' types decide it, logical operators `Boolean` on booleans, and
   * comparisons `Boolean`.
   */
  function BinaryType(op: BinaryOperator, lt: ValType, rt: ValType): ValType
  {
    match op
    case BITAND => Number_int
    case BITOR => Number_int
    case BITXOR => Number_int
    case SHL => Number_int
    case SHR => Number_int
    case USHR => Number_uint
    case DIV => Number
    case EXP => Number
    case MOD => Number
    case MUL => Number
    case SUB => Number
    case ADD =>
      if lt == String || rt == String then String
      else if IsNumeric(lt) && IsPrimitive(rt) && rt != String then Number
      else Any
    case AND => if lt == Boolean && rt == Boolean then Boolean else Any
    case OR => if lt == Boolean && rt == Boolean then Boolean else Any
    case _ => Boolean
  }

  /**
   * The static type of an expression, case by case as the type visitor assigns it.
   * Nodes the visitor has no case for are `Any`.
   */
  function TypeOf(e: Expression): ValType
  {
    match e
    case StringLiteral(_) => String
    case TemplateLiteral(_) => String
    case NumericLiteral(v) => if IsInt(v) then Number_int else Number
    case BooleanLiteral(_) => Boolean
    case NullLiteral => Null
    case ObjectCreation(_) => Object
    case NewExpression(_, _) => Object
    case BinaryExpression(op, l, r) => BinaryType(op, TypeOf(l), TypeOf(r))
    case UnaryExpression(uop, _) =>
      (match uop
       case BITNOT => Number_int
       case NEG => Number
       case POS => Number
       case POST_DEC => Number
       case POST_INC => Number
       case PRE_DEC => Number
       case PRE_INC => Number
       case DELETE => Boolean
       case NOT => Boolean
       case VOID => Undefined
       case TYPEOF => String)
    case ConditionalExpression(_, t, o) =>
      var lt := TypeOf(t);
      var rt := TypeOf(o);
      if lt != rt && IsNumeric(lt) && IsNumeric(rt) then Number
      else if lt == rt then lt
      else Any
    case CommaExpression(_, last) => TypeOf(last)
    case AssignmentExpression(aop, _, rhs) =>
      (match aop
       case ASSIGN_BITAND => Number_int
       case ASSIGN_BITOR => Number_int
       case ASSIGN_BITXOR => Number_int
       case ASSIGN_SHL => Number_int
       case ASSIGN_SHR => Number_int
       case ASSIGN_USHR => Number_uint
       case ASSIGN_DIV => Number
       case ASSIGN_EXP => Number
       case ASSIGN_MOD => Number
       case ASSIGN_MUL => Number
       case ASSIGN_SUB => Number
       case ASSIGN_ADD => if TypeOf(rhs) == String then String else Any
       case ASSIGN => TypeOf(rhs))
    case _ => Any
  }

  // ---------------------------------------------------------------------------
  // Run-time kinds of values, following the language's operator semantics.
  // ---------------------------------------------------------------------------

  /** The run-time kind of a value; numbers are split by signed/unsigned 32-bit range. */
  datatype Kind =
    | KUndefined | KNull | KBoolean | KNumber(int32: bool, uint32: bool) | KString | KObject

  function KindOf(v: V.Value): (k: Kind)
    ensures k.KNumber? <==> v.Number?
    ensures k.KNumber? ==> (k.int32 <==> IsInt(v.n)) && (k.uint32 <==> 0 <= v.n < 0x1_0000_0000)
  {
    match v
    case Undefined => KUndefined
    case Null => KNull
    case Bool(_) => KBoolean
    case Number(n) => KNumber(IsInt(n), 0 <= n < 0x1_0000_0000)
    case String(_) => KString
    case Object(_) => KObject
  }

  const Numbers: set<Kind> :=
    {KNumber(false, false), KNumber(false, true), KNumber(true, false), KNumber(true, true)}
  const Int32s: set<Kind> := {KNumber(true, false), KNumber(true, true)}
  const Uint32s: set<Kind> := {KNumber(false, true), KNumber(true, true)}
  const Primitives: set<Kind> := {KUndefined, KNull, KBoolean, KString} + Numbers
  const AllKinds: set<Kind> := Primitives + {KObject}

  /** The kinds `ToPrimitive` can turn values of the given kinds into (objects: any primitive). */
  function ToPrimitiveKinds(s: set<Kind>): set<Kind>
  {
    (s - {KObject}) + (if KObject in s then Primitives else {})
  }

  /** The `+` operator on primitives: a string if either side is one, otherwise a number. */
  predicate AddResult(a: Kind, b: Kind, k: Kind)
  {
    if a == KString || b == KString then k == KString else k.KNumber?
  }

  function AddKinds(l: set<Kind>, r: set<Kind>): set<Kind>
  {
    var lp := ToPrimitiveKinds(l);
    var rp := ToPrimitiveKinds(r);
    set k | k in AllKinds && exists a, b :: a in lp && b in rp && AddResult(a, b, k)
  }

  /** The kinds a binary expression yields from those its operands yield. */
  function BinaryKinds(op: BinaryOperator, lk: set<Kind>, rk: set<Kind>): set<Kind>
  {
    match op
    case BITAND => Int32s
    case BITOR => Int32s
    case BITXOR => Int32s
    case SHL => Int32s
    case SHR => Int32s
    case USHR => Uint32s
    case DIV => Numbers
    case EXP => Numbers
    case MOD => Numbers
    case MUL => Numbers
    case SUB => Numbers
    case ADD => AddKinds(lk, rk)
    case AND => lk + rk
    case OR => lk + rk
    case _ => {KBoolean}
  }

  /**
   * The kinds of values an expression may evaluate to, independently of the static
   * types: operands that are not inspected may produce anything.
   */
  function Produces(e: Expression): set<Kind>
  {
    match e
    case StringLiteral(_) => {KString}
    case TemplateLiteral(_) => {KString}
    case NumericLiteral(v) => {KindOf(V.Number(v))}
    case BooleanLiteral(_) => {KBoolean}
    case NullLiteral => {KNull}
    case ObjectCreation(_) => {KObject}
    case NewExpression(_, _) => {KObject}
    case BinaryExpression(op, l, r) => BinaryKinds(op, Produces(l), Produces(r))
    case UnaryExpression(uop, _) =>
      (match uop
       case BITNOT => Int32s
       case DELETE => {KBoolean}
       case NOT => {KBoolean}
       case VOID => {KUndefined}
       case TYPEOF => {KString}
       case _ => Numbers)
    case ConditionalExpression(_, t, o) => Produces(t) + Produces(o)
    case CommaExpression(_, last) => Produces(last)
    case AssignmentExpression(aop, _, rhs) =>
      (match aop
       case ASSIGN => Produces(rhs)
       case ASSIGN_ADD => AddKinds(AllKinds, Produces(rhs))
       case ASSIGN_BITAND => Int32s
       case ASSIGN_BITOR => Int32s
       case ASSIGN_BITXOR => Int32s
       case ASSIGN_SHL => Int32s
       case ASSIGN_SHR => Int32s
       case ASSIGN_USHR => Uint32s
       case _ => Numbers)
    case _ => AllKinds
  }

  /** The values a static type stands for. */
  predicate Admits(t: ValType, k: Kind)
  {
    match t
    case Any => true
    case Undefined => k == KUndefined
    case Null => k == KNull
    case Boolean => k == KBoolean
    case Number => k.KNumber?
    case Number_int => k.KNumber? && k.int32
    case Number_uint => k.KNumber? && k.uint32
    case String => k == KString
    case Object => k == KObject
  }

  /** A primitive static type never admits an object, and a non-`String` one never a string. */
  lemma PrimitiveTypesExcludeObjects(t: ValType, k: Kind)
    requires IsPrimitive(t) && Admits(t, k)
    ensures k != KObject
    ensures t != String ==> k != KString
  {
  }

  /** `+` on operands whose kinds avoid strings and objects yields only numbers. */
  lemma AddOfNonStringPrimitives(l: set<Kind>, r: set<Kind>)
    requires KString !in l && KObject !in l && KString !in r && KObject !in r
    ensures AddKinds(l, r) <= Numbers
  {
    forall k | k in AddKinds(l, r)
      ensures k in Numbers
    {
      var a, b :| a in ToPrimitiveKinds(l) && b in ToPrimitiveKinds(r) && AddResult(a, b, k);
      assert a != KString && b != KString;
    }
  }

  /** `+` where one side can only be a string yields only strings. */
  lemma AddWithStringSide(l: set<Kind>, r: set<Kind>)
    requires l <= {KString} || r <= {KString}
    ensures AddKinds(l, r) <= {KString}
  {
    forall k | k in AddKinds(l, r)
      ensures k == KString
    {
      var a, b :| a in ToPrimitiveKinds(l) && b in ToPrimitiveKinds(r) && AddResult(a, b, k);
      assert a == KString || b == KString;
    }
  }

  /** Every kind of value `e` can produce is admitted by its static type. */
  predicate SoundFor(e: Expression)
  {
    forall k :: k in Produces(e) ==> Admits(TypeOf(e), k)
  }

  /**
   * Soundness of the inference: every kind of value an expression can produce is
   * admitted by its static type.
   */
  lemma {:induction false} TypeOfSound(e: Expression)
    ensures SoundFor(e)
  {
    match e
    case BinaryExpression(op, l, r) =>
      TypeOfSound(l);
      TypeOfSound(r);
      BinarySound(op, l, r);
    case ConditionalExpression(c, t, o) =>
      TypeOfSound(t);
      TypeOfSound(o);
      ConditionalSound(c, t, o);
    case CommaExpression(_, last) =>
      TypeOfSound(last);
    case AssignmentExpression(aop, target, rhs) =>
      TypeOfSound(rhs);
      AssignmentSound(aop, target, rhs);
    case _ =>
      LeafSound(e);
  }

  /** Expressions whose type and kinds do not depend on a subexpression are sound. */
  lemma LeafSound(e: Expression)
    requires !e.BinaryExpression? && !e.ConditionalExpression? && !e.CommaExpression? && !e.AssignmentExpression?
    ensures SoundFor(e)
  {
  }

  /** A conditional expression is sound when both branches are. */
  lemma ConditionalSound(c: Expression, t: Expression, o: Expression)
    requires SoundFor(t) && SoundFor(o)
    ensures SoundFor(ConditionalExpression(c, t, o))
  {
  }

  /** A binary expression is sound when its operands are. */
  lemma BinarySound(op: BinaryOperator, l: Expression, r: Expression)
    requires SoundFor(l) && SoundFor(r)
    ensures SoundFor(BinaryExpression(op, l, r))
  {
    if op == ADD {
      AddSound(l, r);
    }
  }

  /** `+` is sound when its operands are. */
  lemma AddSound(l: Expression, r: Expression)
    requires SoundFor(l) && SoundFor(r)
    ensures SoundFor(BinaryExpression(ADD, l, r))
  {
    var lt := TypeOf(l);
    var rt := TypeOf(r);
    if lt == String || rt == String {
      AddStringSound(l, r);
    } else if IsNumeric(lt) && IsPrimitive(rt) {
      AddNumberSound(l, r);
    }
  }

  /** `+` with an operand typed `String` is typed `String` and yields only strings. */
  lemma AddStringSound(l: Expression, r: Expression)
    requires SoundFor(l) && SoundFor(r) && (TypeOf(l) == String || TypeOf(r) == String)
    ensures SoundFor(BinaryExpression(ADD, l, r))
  {
    assert Produces(l) <= {KString} || Produces(r) <= {KString};
    AddWithStringSide(Produces(l), Produces(r));
    AddKindsOf(l, r);
    AddTypeOf(l, r);
  }

  lemma AddNumberSound(l: Expression, r: Expression)
    requires SoundFor(l) && SoundFor(r)
    requires IsNumeric(TypeOf(l)) && IsPrimitive(TypeOf(r)) && TypeOf(r) != String
    ensures SoundFor(BinaryExpression(ADD, l, r))
  {
    assert KString !in Produces(l) && KObject !in Produces(l);
    forall k | k in Produces(r)
      ensures k != KString && k != KObject
    {
      PrimitiveTypesExcludeObjects(TypeOf(r), k);
    }
    AddOfNonStringPrimitives(Produces(l), Produces(r));
    AddKindsOf(l, r);
    AddTypeOf(l, r);
  }

  /** The kinds of `l + r`, in terms of those of the operands. */
  lemma AddKindsOf(l: Expression, r: Expression)
    ensures Produces(BinaryExpression(ADD, l, r)) == AddKinds(Produces(l), Produces(r))
  {
  }

  /** The static type of `l + r`: a string beside anything, or a number with a primitive. */
  lemma AddTypeOf(l: Expression, r: Expression)
    ensures TypeOf(l) == String || TypeOf(r) == String ==> TypeOf(BinaryExpression(ADD, l, r)) == String
    ensures TypeOf(l) != String && IsNumeric(TypeOf(l)) && IsPrimitive(TypeOf(r)) && TypeOf(r) != String ==>
              TypeOf(BinaryExpression(ADD, l, r)) == Number
  {
  }

  /** An assignment is sound when its right-hand side is. */
  lemma AssignmentSound(aop: AssignmentOperator, target: Expression, rhs: Expression)
    requires SoundFor(rhs)
    ensures SoundFor(AssignmentExpression(aop, target, rhs))
  {
    if aop == ASSIGN_ADD && TypeOf(rhs) == String {
      AddWithStringSide(AllKinds, Produces(rhs));
    }
  }

  /** Numeric literals are typed `Number_int` exactly when their value is a 32-bit `int`. */
  lemma NumericLiteralType(v: int)
    ensures TypeOf(NumericLiteral(v)) == Number_int <==> -0x8000_0000 <= v < 0x8000_0000
    ensures Admits(TypeOf(NumericLiteral(v)), KindOf(V.Number(v)))
  {
  }
}
