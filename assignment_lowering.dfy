// The order of observable steps in compound assignments (`x op= e`) and in the
// increment/decrement operators: the target reference is evaluated once, its value
// read once, and the result stored through that same reference.

module AssignmentLowering {
  import opened Wrappers
  import opened Expressions
  import U = UnaryExpressionNode

  /** The observable steps of an assignment, as the emitted code performs them. */
  datatype Step =
    | EvaluateReference   // the target reference, evaluated for update
    | GetValue            // the target's current value
    | EvaluateRhs         // the right-hand side
    | ConvertLeft         // ToNumber / ToInt32 / ToUint32 / ToString(ToPrimitive) of the old value
    | ConvertRight        // the same conversion of the right-hand value
    | ApplyOperator       // the arithmetic, or the generic `+` (which converts internally)
    | PutValue            // the store through the reference

  function Count(steps: seq<Step>, s: Step): nat
  {
    multiset(steps)[s]
  }

  predicate Precedes(steps: seq<Step>, a: Step, b: Step)
  {
    exists i, j :: 0 <= i < j < |steps| && steps[i] == a && steps[j] == b
  }

  /** Every assignment starts by evaluating the reference and reading it, and ends by storing. */
  predicate ReferenceOnce(steps: seq<Step>)
  {
    |steps| >= 3 && steps[0] == EvaluateReference && steps[1] == GetValue &&
    steps[|steps| - 1] == PutValue &&
    Count(steps, EvaluateReference) == 1 && Count(steps, GetValue) == 1 && Count(steps, PutValue) == 1
  }

  /** Right-hand sides whose evaluation cannot be observed. */
  predicate EffectFree(rhs: Expression)
  {
    IsLiteral(rhs) || rhs == TemplateLiteral([])
  }

  /**
   * The steps of a compound assignment: the reference is evaluated, read and stored
   * exactly once each; the right side, when evaluated, is evaluated once, after the read,
   * and combined by the operator; `early` says whether the old value is converted
   * before the right side is evaluated.
   */
  predicate Shape(steps: seq<Step>, rhsEvaluated: bool, converted: bool, early: bool)
  {
    ReferenceOnce(steps) &&
    Count(steps, EvaluateRhs) == (if rhsEvaluated then 1 else 0) &&
    Count(steps, ApplyOperator) == (if rhsEvaluated then 1 else 0) &&
    Count(steps, ConvertLeft) == (if converted then 1 else 0) &&
    (rhsEvaluated ==> Precedes(steps, GetValue, EvaluateRhs) && Precedes(steps, EvaluateRhs, ApplyOperator)) &&
    (Precedes(steps, ConvertLeft, EvaluateRhs) <==> early)
  }

  /** The numeric operators additionally convert the right value after evaluating it. */
  predicate NumericShape(steps: seq<Step>, early: bool)
  {
    Shape(steps, true, true, early) &&
    Count(steps, ConvertRight) == 1 &&
    Precedes(steps, EvaluateRhs, ConvertRight) && Precedes(steps, ConvertRight, ApplyOperator) &&
    Precedes(steps, ConvertLeft, ApplyOperator)
  }

  lemma NumericEarlyShapeReferences(s: seq<Step>)
    requires s == [EvaluateReference, GetValue, ConvertLeft, EvaluateRhs, ConvertRight, ApplyOperator, PutValue]
    ensures ReferenceOnce(s)
  {
  }

  lemma NumericEarlyShapeBase(s: seq<Step>)
    requires s == [EvaluateReference, GetValue, ConvertLeft, EvaluateRhs, ConvertRight, ApplyOperator, PutValue]
    ensures Shape(s, true, true, true)
  {
    NumericEarlyShapeReferences(s);
    assert s[2] == ConvertLeft && s[3] == EvaluateRhs && s[5] == ApplyOperator;
  }

  lemma NumericEarlyShape(s: seq<Step>)
    requires s == [EvaluateReference, GetValue, ConvertLeft, EvaluateRhs, ConvertRight, ApplyOperator, PutValue]
    ensures NumericShape(s, true)
  {
    NumericEarlyShapeBase(s);
    assert s[4] == ConvertRight && s[5] == ApplyOperator;
  }

  lemma NumericLateShapeReferences(s: seq<Step>)
    requires s == [EvaluateReference, GetValue, EvaluateRhs, ConvertLeft, ConvertRight, ApplyOperator, PutValue]
    ensures ReferenceOnce(s)
  {
  }

  lemma NumericLateShapeBase(s: seq<Step>)
    requires s == [EvaluateReference, GetValue, EvaluateRhs, ConvertLeft, ConvertRight, ApplyOperator, PutValue]
    ensures Shape(s, true, true, false)
  {
    NumericLateShapeReferences(s);
    assert s[2] == EvaluateRhs && s[5] == ApplyOperator;
    forall i, j | 0 <= i < j < |s| && s[i] == ConvertLeft
      ensures s[j] != EvaluateRhs
    {
      assert i == 3;
    }
  }

  lemma NumericLateShape(s: seq<Step>)
    requires s == [EvaluateReference, GetValue, EvaluateRhs, ConvertLeft, ConvertRight, ApplyOperator, PutValue]
    ensures NumericShape(s, false)
  {
    NumericLateShapeBase(s);
    assert s[3] == ConvertLeft && s[4] == ConvertRight && s[5] == ApplyOperator;
  }

  lemma ConvertOnlyShapeReferences(s: seq<Step>)
    requires s == [EvaluateReference, GetValue, ConvertLeft, PutValue]
    ensures ReferenceOnce(s)
  {
  }

  lemma ConvertOnlyShape(s: seq<Step>)
    requires s == [EvaluateReference, GetValue, ConvertLeft, PutValue]
    ensures Shape(s, false, true, false)
  {
    ConvertOnlyShapeReferences(s);
  }

  lemma ConvertThenAppendShapeReferences(s: seq<Step>)
    requires s == [EvaluateReference, GetValue, ConvertLeft, EvaluateRhs, ApplyOperator, PutValue]
    ensures ReferenceOnce(s)
  {
  }

  lemma ConvertThenAppendShapeBase(s: seq<Step>)
    requires s == [EvaluateReference, GetValue, ConvertLeft, EvaluateRhs, ApplyOperator, PutValue]
    ensures Shape(s, true, true, true)
  {
    ConvertThenAppendShapeReferences(s);
    assert s[2] == ConvertLeft && s[3] == EvaluateRhs && s[4] == ApplyOperator;
  }

  lemma ConvertThenAppendShape(s: seq<Step>)
    requires s == [EvaluateReference, GetValue, ConvertLeft, EvaluateRhs, ApplyOperator, PutValue]
    ensures Shape(s, true, true, true) && !Precedes(s, EvaluateRhs, ConvertLeft)
  {
    ConvertThenAppendShapeBase(s);
    assert s[2] == ConvertLeft && s[3] == EvaluateRhs;
  }

  lemma EvaluateThenConvertShapeReferences(s: seq<Step>)
    requires s == [EvaluateReference, GetValue, EvaluateRhs, ConvertLeft, ApplyOperator, PutValue]
    ensures ReferenceOnce(s)
  {
  }

  lemma EvaluateThenConvertShapeBase(s: seq<Step>)
    requires s == [EvaluateReference, GetValue, EvaluateRhs, ConvertLeft, ApplyOperator, PutValue]
    ensures Shape(s, true, true, false)
  {
    EvaluateThenConvertShapeReferences(s);
    assert s[2] == EvaluateRhs && s[3] == ConvertLeft && s[4] == ApplyOperator;
  }

  lemma EvaluateThenConvertShape(s: seq<Step>)
    requires s == [EvaluateReference, GetValue, EvaluateRhs, ConvertLeft, ApplyOperator, PutValue]
    ensures Shape(s, true, true, false) && Precedes(s, EvaluateRhs, ConvertLeft)
  {
    EvaluateThenConvertShapeBase(s);
    assert s[2] == EvaluateRhs && s[3] == ConvertLeft;
  }

  lemma GenericAddShapeReferences(s: seq<Step>)
    requires s == [EvaluateReference, GetValue, EvaluateRhs, ApplyOperator, PutValue]
    ensures ReferenceOnce(s)
  {
  }

  lemma GenericAddShape(s: seq<Step>)
    requires s == [EvaluateReference, GetValue, EvaluateRhs, ApplyOperator, PutValue]
    ensures Shape(s, true, false, false)
  {
    GenericAddShapeReferences(s);
    assert s[2] == EvaluateRhs && s[3] == ApplyOperator;
  }

  /**
   * The numeric compound operators: the old value is converted before the right-hand
   * side only when that side is a literal, whose evaluation nobody can observe.
   */
  method NumericCompoundSteps(rhs: Expression) returns (steps: seq<Step>)
    ensures NumericShape(steps, IsLiteral(rhs))
  {
    steps := [EvaluateReference, GetValue];
    if IsLiteral(rhs) {
      steps := steps + [ConvertLeft];
    }
    steps := steps + [EvaluateRhs];
    if !IsLiteral(rhs) {
      steps := steps + [ConvertLeft];
    }
    steps := steps + [ConvertRight, ApplyOperator, PutValue];
    if IsLiteral(rhs) {
      NumericEarlyShape(steps);
    } else {
      NumericLateShape(steps);
    }
  }

  /** A string or template literal on the right of `+=`. */
  predicate StringOperand(rhs: Expression)
  {
    rhs.StringLiteral? || rhs.TemplateLiteral?
  }

  /**
   * `+=` as emitted: with a string or template literal on the right, the old value is
   * converted to a string first, then the right side (unless it is `""`) is evaluated
   * and appended; otherwise the right side is evaluated and the generic `+` applied.
   */
  method AddAssignmentSteps(rhs: Expression) returns (steps: seq<Step>)
    ensures Shape(steps, rhs != StringLiteral(""), StringOperand(rhs),
                  StringOperand(rhs) && rhs != StringLiteral(""))
    ensures StringOperand(rhs) && rhs != StringLiteral("") ==> !Precedes(steps, EvaluateRhs, ConvertLeft)
  {
    steps := [EvaluateReference, GetValue];
    if rhs.StringLiteral? || rhs.TemplateLiteral? {
      steps := steps + [ConvertLeft];
      if !(rhs.StringLiteral? && rhs.value == "") {
        steps := steps + [EvaluateRhs, ApplyOperator];
      }
    } else {
      steps := steps + [EvaluateRhs, ApplyOperator];
    }
    steps := steps + [PutValue];
    if rhs.StringLiteral? || rhs.TemplateLiteral? {
      if rhs.StringLiteral? && rhs.value == "" {
        assert rhs == StringLiteral("");
        ConvertOnlyShape(steps);
      } else {
        assert rhs != StringLiteral("") && StringOperand(rhs);
        ConvertThenAppendShape(steps);
      }
    } else {
      assert rhs != StringLiteral("") && !StringOperand(rhs);
      GenericAddShape(steps);
    }
  }

  /**
   * `+=` with the conversion of the old value deferred until after any right-hand side
   * whose evaluation can be observed: only a string literal or a template without
   * substitutions is appended directly.
   */
  method AddAssignmentStepsIntended(rhs: Expression) returns (steps: seq<Step>)
    ensures Shape(steps, rhs != StringLiteral(""), StringOperand(rhs),
                  EffectFree(rhs) && StringOperand(rhs) && rhs != StringLiteral(""))
    ensures rhs.TemplateLiteral? && !EffectFree(rhs) ==> Precedes(steps, EvaluateRhs, ConvertLeft)
  {
    steps := [EvaluateReference, GetValue];
    if rhs.StringLiteral? || rhs == TemplateLiteral([]) {
      steps := steps + [ConvertLeft];
      if !(rhs.StringLiteral? && rhs.value == "") {
        steps := steps + [EvaluateRhs, ApplyOperator];
      }
    } else if rhs.TemplateLiteral? {
      steps := steps + [EvaluateRhs, ConvertLeft, ApplyOperator];
    } else {
      steps := steps + [EvaluateRhs, ApplyOperator];
    }
    steps := steps + [PutValue];
    if rhs.StringLiteral? || rhs == TemplateLiteral([]) {
      if rhs.StringLiteral? && rhs.value == "" {
        assert rhs == StringLiteral("");
        ConvertOnlyShape(steps);
      } else {
        assert rhs != StringLiteral("") && StringOperand(rhs) && EffectFree(rhs);
        ConvertThenAppendShape(steps);
      }
    } else if rhs.TemplateLiteral? {
      assert rhs != StringLiteral("") && StringOperand(rhs) && !EffectFree(rhs);
      EvaluateThenConvertShape(steps);
    } else {
      assert rhs != StringLiteral("") && !StringOperand(rhs);
      GenericAddShape(steps);
    }
  }

  /**
   * A compound assignment as emitted (`ASSIGN` and destructuring have their own
   * lowering). The reference is evaluated exactly once, read once and stored through
   * once. The old value is converted before the right-hand side is evaluated exactly
   * for a literal operand of a numeric operator, and for `+=` with a non-empty string
   * or template literal on the right, substitutions included.
   */
  method CompoundAssignmentSteps(aop: AssignmentOperator, rhs: Expression) returns (steps: seq<Step>)
    requires aop != ASSIGN
    ensures ReferenceOnce(steps)
    ensures Count(steps, EvaluateRhs) == (if aop == ASSIGN_ADD && rhs == StringLiteral("") then 0 else 1)
    ensures Count(steps, EvaluateRhs) == 1 ==> Precedes(steps, GetValue, EvaluateRhs)
    ensures Precedes(steps, ConvertLeft, EvaluateRhs) <==>
            if aop == ASSIGN_ADD then StringOperand(rhs) && rhs != StringLiteral("") else IsLiteral(rhs)
  {
    if aop == ASSIGN_ADD {
      steps := AddAssignmentSteps(rhs);
    } else {
      steps := NumericCompoundSteps(rhs);
    }
  }

  /**
   * A compound assignment with `+=` as evidently intended: as emitted, except that any
   * right-hand side with observable evaluation runs before the old value is converted.
   */
  method CompoundAssignmentStepsIntended(aop: AssignmentOperator, rhs: Expression) returns (steps: seq<Step>)
    requires aop != ASSIGN
    ensures ReferenceOnce(steps)
    ensures Count(steps, EvaluateRhs) == (if aop == ASSIGN_ADD && rhs == StringLiteral("") then 0 else 1)
    ensures Count(steps, EvaluateRhs) == 1 ==> Precedes(steps, GetValue, EvaluateRhs)
    ensures Precedes(steps, ConvertLeft, EvaluateRhs) ==> EffectFree(rhs)
  {
    if aop == ASSIGN_ADD {
      steps := AddAssignmentStepsIntended(rhs);
    } else {
      steps := NumericCompoundSteps(rhs);
    }
  }

  /**
   * `x += \`${f()}\`` as emitted: the old value of `x` is converted to a string before
   * the template's substitution runs.
   */
  method TemplateAddConvertsLeftFirst() returns (steps: seq<Step>)
    ensures Precedes(steps, ConvertLeft, EvaluateRhs) && !Precedes(steps, EvaluateRhs, ConvertLeft)
    ensures !EffectFree(TemplateLiteral([CallExpression(IdentifierReference("f"), [])]))
  {
    steps := AddAssignmentSteps(TemplateLiteral([CallExpression(IdentifierReference("f"), [])]));
  }

  // ---------------------------------------------------------------------------
  // ++ and --
  // ---------------------------------------------------------------------------

  /**
   * An increment or decrement: the reference is evaluated once, its value converted
   * with ToNumber, updated by one and stored. A prefix form yields the new number, a
   * postfix form the old one; with no completion value nothing is kept.
   */
  method UpdateExpression(op: U.Operator, oldNumber: int, hasCompletion: bool)
    returns (steps: seq<Step>, stored: int, result: Option<int>)
    requires U.IsUpdate(op)
    ensures ReferenceOnce(steps) && Count(steps, EvaluateRhs) == 0
    ensures stored == oldNumber + (if op == U.PRE_INC || op == U.POST_INC then 1 else -1)
    ensures hasCompletion <==> result.Some?
    ensures result.Some? ==> result.value == (if U.IsPostfix(op) then oldNumber else stored)
  {
    steps := [EvaluateReference, GetValue, ConvertLeft];
    var delta := if op == U.PRE_INC || op == U.POST_INC then 1 else -1;
    if !U.IsPostfix(op) {
      stored := oldNumber + delta;
      steps := steps + [ApplyOperator, PutValue];
      result := if hasCompletion then Some(stored) else None;
    } else if hasCompletion {
      var saved := oldNumber;
      stored := oldNumber + delta;
      steps := steps + [ApplyOperator, PutValue];
      result := Some(saved);
    } else {
      stored := oldNumber + delta;
      steps := steps + [ApplyOperator, PutValue];
      result := None;
    }
    UpdateShape(steps);
  }

  lemma UpdateShape(s: seq<Step>)
    requires s == [EvaluateReference, GetValue, ConvertLeft, ApplyOperator, PutValue]
    ensures ReferenceOnce(s) && Count(s, EvaluateRhs) == 0
  {
  }
}
