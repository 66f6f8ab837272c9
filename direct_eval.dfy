// Argument lists and the direct call to `eval`: which shape the evaluated argument
// list takes, which flags the eval receives, and which value becomes the eval source.

module DirectEval {
  import opened Values
  import opened Expressions
  import CallSites

  // ---------------------------------------------------------------------------
  // Argument evaluation
  // ---------------------------------------------------------------------------

  /** One evaluated argument: a plain value, or the values a spread element iterated. */
  datatype Slot = One(value: Value) | Many(values: seq<Value>)

  /**
   * The outcome of evaluating argument expressions: `valueOf` gives a plain
   * argument's value and `spreadOf` the values a spread operand iterates to.
   */
  function SlotOf(arg: Expression, valueOf: Expression -> Value, spreadOf: Expression -> seq<Value>)
    : (s: Slot)
    ensures s.Many? <==> arg.CallSpreadElement?
  {
    if arg.CallSpreadElement? then Many(spreadOf(arg.spread)) else One(valueOf(arg))
  }

  function SlotsOf(args: seq<Expression>, valueOf: Expression -> Value, spreadOf: Expression -> seq<Value>)
    : (slots: seq<Slot>)
    ensures |slots| == |args|
    ensures forall i :: 0 <= i < |args| ==> slots[i] == SlotOf(args[i], valueOf, spreadOf)
  {
    seq(|args|, i requires 0 <= i < |args| => SlotOf(args[i], valueOf, spreadOf))
  }

  /** Flattening splices each spread's values in place of its slot. */
  function Flatten(slots: seq<Slot>): seq<Value>
    decreases |slots|
  {
    if |slots| == 0 then []
    else (match slots[0] case One(v) => [v] case Many(vs) => vs) + Flatten(slots[1..])
  }

  /** The list of argument values a call receives. */
  function ArgumentValues(args: seq<Expression>, valueOf: Expression -> Value, spreadOf: Expression -> seq<Value>)
    : seq<Value>
  {
    Flatten(SlotsOf(args, valueOf, spreadOf))
  }

  lemma {:induction false} FlattenOfPlainSlots(slots: seq<Slot>)
    requires forall i :: 0 <= i < |slots| ==> slots[i].One?
    ensures |Flatten(slots)| == |slots|
    ensures forall i :: 0 <= i < |slots| ==> Flatten(slots)[i] == slots[i].value
    decreases |slots|
  {
    if |slots| > 0 {
      FlattenOfPlainSlots(slots[1..]);
    }
  }

  /** A leading plain slot is the first flattened value. */
  lemma FlattenOfLeadingPlain(slots: seq<Slot>)
    requires |slots| > 0 && slots[0].One?
    ensures |Flatten(slots)| > 0 && Flatten(slots)[0] == slots[0].value
  {
  }

  /** A plain slot anywhere makes the flattened list non-empty. */
  lemma {:induction false} FlattenNonEmpty(slots: seq<Slot>, k: int)
    requires 0 <= k < |slots| && slots[k].One?
    ensures |Flatten(slots)| > 0
    decreases |slots|
  {
    if k > 0 && !slots[0].One? {
      FlattenNonEmpty(slots[1..], k - 1);
    }
  }

  /** The three code shapes an argument list compiles to. */
  datatype ArgumentShape =
    | SharedEmptyArray
    | SoleSpreadArray
    | FixedArray(size: nat, flattened: bool)

  /**
   * `ArgumentListEvaluation`: an empty list uses the shared empty array, a lone spread
   * uses the spread's own array, and anything else fills a fixed array slot by slot in
   * source order, flattening once at the end only if some argument is a spread. In
   * every shape the produced list is the flattened argument list.
   */
  method ArgumentListEvaluation(args: seq<Expression>, valueOf: Expression -> Value,
                                spreadOf: Expression -> seq<Value>)
    returns (shape: ArgumentShape, values: seq<Value>, order: seq<nat>)
    ensures values == ArgumentValues(args, valueOf, spreadOf)
    ensures |args| == 0 <==> shape == SharedEmptyArray
    ensures shape == SoleSpreadArray <==> |args| == 1 && args[0].CallSpreadElement?
    ensures shape.FixedArray? ==>
              shape.size == |args| &&
              (shape.flattened <==> exists i :: 0 <= i < |args| && args[i].CallSpreadElement?)
    ensures |order| == |args| && forall i :: 0 <= i < |order| ==> order[i] == i
  {
    if |args| == 0 {
      return SharedEmptyArray, [], [];
    }
    if |args| == 1 && args[0].CallSpreadElement? {
      values := spreadOf(args[0].spread);
      assert SlotsOf(args, valueOf, spreadOf) == [Many(values)];
      assert Flatten([Many(values)]) == values + Flatten([]);
      return SoleSpreadArray, values, [0];
    }
    var slots := new Slot[|args|];
    var hasSpread := false;
    order := [];
    var i := 0;
    while i < |args|
      invariant 0 <= i <= |args|
      invariant forall j :: 0 <= j < i ==> slots[j] == SlotOf(args[j], valueOf, spreadOf)
      invariant hasSpread <==> exists j :: 0 <= j < i && args[j].CallSpreadElement?
      invariant |order| == i && forall j :: 0 <= j < i ==> order[j] == j
    {
      var argument := args[i];
      hasSpread := hasSpread || argument.CallSpreadElement?;
      slots[i] := SlotOf(argument, valueOf, spreadOf);
      order := order + [i];
      i := i + 1;
    }
    assert slots[..] == SlotsOf(args, valueOf, spreadOf);
    if hasSpread {
      values := Flatten(slots[..]);
    } else {
      assert forall j :: 0 <= j < slots.Length ==> slots[j].One?;
      values := seq(slots.Length, j requires 0 <= j < slots.Length && slots[j].One? reads slots => slots[j].value);
      FlattenOfPlainSlots(slots[..]);
    }
    shape := FixedArray(|args|, hasSpread);
  }

  // ---------------------------------------------------------------------------
  // Argument-list predicates used by the eval lowering
  // ---------------------------------------------------------------------------

  /** `hasArguments`: some argument is not a spread element. */
  method HasArguments(args: seq<Expression>) returns (b: bool)
    ensures b <==> exists i :: 0 <= i < |args| && !args[i].CallSpreadElement?
  {
    for i := 0 to |args|
      invariant forall j :: 0 <= j < i ==> args[j].CallSpreadElement?
    {
      if !args[i].CallSpreadElement? {
        return true;
      }
    }
    return false;
  }

  /** `hasConstantArguments`: every argument is a literal (vacuously true when empty). */
  method HasConstantArguments(args: seq<Expression>) returns (b: bool)
    ensures b <==> forall i :: 0 <= i < |args| ==> IsLiteral(args[i])
  {
    for i := 0 to |args|
      invariant forall j :: 0 <= j < i ==> IsLiteral(args[j])
    {
      if !IsLiteral(args[i]) {
        return false;
      }
    }
    return true;
  }

  // ---------------------------------------------------------------------------
  // Eval flags
  // ---------------------------------------------------------------------------

  datatype EvalFlag =
    | Direct | Strict | GlobalCode | GlobalScope | GlobalThis
    | EnclosedByWithStatement | EnclosedByLexicalDeclaration

  /**
   * What the compiler knows about the code containing the call. The global-scope,
   * global-this and lexical-declaration answers are computed elsewhere and taken as
   * given; the `with` answer comes from the nameless scope walk.
   */
  datatype CodeContext = CodeContext(
    strict: bool,
    globalCode: bool,
    globalScope: bool,
    globalThis: bool,
    enclosedByLexicalDeclaration: bool,
    scopes: seq<CallSites.Scope>,
    withOption: bool)

  predicate AnyWithScope(ctx: CodeContext)
  {
    (exists i :: 0 <= i < |ctx.scopes| && ctx.scopes[i].kind == CallSites.WithScope) || ctx.withOption
  }

  /** The flag set passed to the eval entry points. */
  function EvalFlagsOf(ctx: CodeContext): (flags: set<EvalFlag>)
    ensures Direct in flags
    ensures Strict in flags <==> ctx.strict
    ensures GlobalCode in flags <==> ctx.globalCode
    ensures GlobalScope in flags <==> ctx.globalScope
    ensures GlobalThis in flags <==> ctx.globalThis
    ensures EnclosedByWithStatement in flags <==> AnyWithScope(ctx)
    ensures EnclosedByLexicalDeclaration in flags <==> !ctx.strict && ctx.enclosedByLexicalDeclaration
  {
    {Direct}
    + (if ctx.strict then {Strict} else {})
    + (if ctx.globalCode then {GlobalCode} else {})
    + (if ctx.globalScope then {GlobalScope} else {})
    + (if ctx.globalThis then {GlobalThis} else {})
    + (if AnyWithScope(ctx) then {EnclosedByWithStatement} else {})
    + (if !ctx.strict && ctx.enclosedByLexicalDeclaration then {EnclosedByLexicalDeclaration} else {})
  }

  /** The flag computation, one bit at a time. */
  method ComputeEvalFlags(ctx: CodeContext) returns (flags: set<EvalFlag>)
    ensures flags == EvalFlagsOf(ctx)
  {
    flags := {Direct};
    if ctx.strict {
      flags := flags + {Strict};
    }
    if ctx.globalCode {
      flags := flags + {GlobalCode};
    }
    if ctx.globalScope {
      flags := flags + {GlobalScope};
    }
    if ctx.globalThis {
      flags := flags + {GlobalThis};
    }
    var inWith := CallSites.IsEnclosedByAnyWithStatement(ctx.scopes, ctx.withOption);
    if inWith {
      flags := flags + {EnclosedByWithStatement};
    }
    if !ctx.strict && ctx.enclosedByLexicalDeclaration {
      flags := flags + {EnclosedByLexicalDeclaration};
    }
  }

  // ---------------------------------------------------------------------------
  // PerformEval
  // ---------------------------------------------------------------------------

  /** What the direct call to the built-in `eval` does. */
  datatype EvalOutcome =
    | EvalSource(source: Value, flags: set<EvalFlag>)             // run the direct eval on `source`
    | EvalTranslate(arguments: seq<Value>, flags: set<EvalFlag>)  // realm hook: all arguments
    | EvalUndefined                                               // no argument: result undefined

  /** The evaluation a direct eval performs, given its flattened argument list. */
  function EvalOf(values: seq<Value>, flags: set<EvalFlag>): EvalOutcome
  {
    if |values| == 0 then EvalUndefined else EvalSource(values[0], flags)
  }

  /**
   * A direct call whose callee turned out to be the built-in `eval`. Non-constant
   * argument lists are evaluated before the callee is checked; a constant list is
   * evaluated only as far as needed. Without the realm hook, the eval source is always
   * the first value of the flattened argument list, and an empty list (empty source
   * list, or spreads that all turned out empty) yields undefined.
   */
  method DirectCallEval(args: seq<Expression>, valueOf: Expression -> Value,
                        spreadOf: Expression -> seq<Value>, ctx: CodeContext, realm: bool)
    returns (outcome: EvalOutcome, evaluated: seq<nat>)
    ensures !realm ==> outcome == EvalOf(ArgumentValues(args, valueOf, spreadOf), EvalFlagsOf(ctx))
    ensures realm ==> outcome == EvalTranslate(ArgumentValues(args, valueOf, spreadOf), EvalFlagsOf(ctx))
    ensures |args| == 0 ==> evaluated == []
    ensures forall i :: 0 <= i < |evaluated| ==> evaluated[i] == i
    ensures realm || (exists i :: 0 <= i < |args| && !IsLiteral(args[i])) ==> |evaluated| == |args|
    ensures !realm && |args| > 0 && (forall i :: 0 <= i < |args| ==> IsLiteral(args[i])) ==> evaluated == [0]
  {
    var constantArguments := HasConstantArguments(args);
    var shape, values, order;
    if !constantArguments {
      shape, values, order := ArgumentListEvaluation(args, valueOf, spreadOf);
    }
    var flags := ComputeEvalFlags(ctx);
    evaluated := if constantArguments then [] else order;
    if realm {
      if constantArguments {
        shape, values, order := ArgumentListEvaluation(args, valueOf, spreadOf);
        evaluated := order;
      }
      return EvalTranslate(values, flags), evaluated;
    }
    ghost var flat := ArgumentValues(args, valueOf, spreadOf);
    if |args| == 0 {
      assert flat == [];
      return EvalUndefined, evaluated;
    }
    var hasArgs := HasArguments(args);
    if hasArgs {
      var k :| 0 <= k < |args| && !args[k].CallSpreadElement?;
      FlattenNonEmpty(SlotsOf(args, valueOf, spreadOf), k);
      if constantArguments {
        assert IsLiteral(args[0]);
        FlattenOfLeadingPlain(SlotsOf(args, valueOf, spreadOf));
        outcome := EvalSource(valueOf(args[0]), flags);
        evaluated := [0];
      } else {
        outcome := EvalSource(values[0], flags);
      }
      assert outcome == EvalOf(flat, flags);
      return;
    }
    if |values| == 0 {
      outcome := EvalUndefined;
    } else {
      outcome := EvalSource(values[0], flags);
    }
    assert outcome == EvalOf(flat, flags);
  }

  /**
   * `eval(...[], "x = 0;")`: the leading spread contributes nothing, so the string
   * argument becomes the eval source.
   */
  method EvalWithEmptyLeadingSpread(ctx: CodeContext) returns (outcome: EvalOutcome)
    ensures outcome.EvalSource? && outcome.source == String("x = 0;")
  {
    var empty := ObjectCreation(ArrayLiteralForm);
    var args := [CallSpreadElement(empty), StringLiteral("x = 0;")];
    var valueOf := (e: Expression) => if e.StringLiteral? then String(e.value) else Undefined;
    var spreadOf := (e: Expression) => [];
    var slots := SlotsOf(args, valueOf, spreadOf);
    assert slots == [Many([]), One(String("x = 0;"))];
    assert slots[1..][1..] == [];
    assert Flatten(slots[1..]) == [String("x = 0;")] + Flatten([]);
    assert Flatten(slots) == [] + Flatten(slots[1..]);
    var evaluated;
    outcome, evaluated := DirectCallEval(args, valueOf, spreadOf, ctx, false);
  }
}
