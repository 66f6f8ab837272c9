// The meaning of the code emitted for binding patterns (`var`/`let`/`const`
// declarations and formal parameters): BindingInitialization,
// IteratorBindingInitialization and KeyedBindingInitialization as functions over the
// run-time state, and what they guarantee about evaluation order.

module Bindings {
  import opened Wrappers
  import opened Values
  import opened Runtime

  datatype Binding =
    | BindingIdentifier(name: string)
    | ArrayBindingPattern(elements: seq<BindingElementItem>)
    | ObjectBindingPattern(properties: seq<BindingProperty>)

  datatype BindingElementItem =
    | BindingElision
    | BindingElement(binding: Binding, initializer: Option<Expr>)
    | BindingRestElement(restName: string)

  /** `{x = d}` names its key and its binding at once; `{k: target = d}` separates them. */
  datatype BindingProperty =
    | SingleNameBinding(boundName: string, defaultValue: Option<Expr>)
    | KeyedBinding(propertyName: PropertyName, target: Binding, targetDefault: Option<Expr>)

  /**
   * Where bound names go: through ResolveBinding and PutValue, or straight into an
   * environment record taken from the operand stack or from a local variable.
   */
  datatype EnvironmentType = NoEnvironment | EnvironmentFromStack | EnvironmentFromLocal

  datatype Context = Context(environment: EnvironmentType, strict: bool)

  /** Formal parameters are bound into a record held in a local exactly when one is supplied. */
  function ParameterEnvironment(withRecord: bool): (t: EnvironmentType)
    ensures t == EnvironmentFromLocal <==> withRecord
    ensures t != EnvironmentFromStack
  {
    if withRecord then EnvironmentFromLocal else NoEnvironment
  }

  /** The name an anonymous function initializer receives: only identifiers give one. */
  function NameOf(b: Binding): (n: Option<string>)
    ensures n.Some? <==> b.BindingIdentifier?
  {
    if b.BindingIdentifier? then Some(b.name) else None
  }

  /**
   * InitializeBoundName: without an environment the name is resolved and stored through
   * the reference; otherwise the binding is initialized in the record.
   */
  function InitializeBoundName(name: string, v: Value, ctx: Context, st: State): (r: Result<State, ErrorKind>)
    ensures r.Ok? ==> Extends(st, r.value, -1) && r.value.heap == st.heap && r.value.iterators == st.iterators
  {
    if ctx.environment == NoEnvironment then PutValue(name, v, ctx.strict, ResolveBinding(name, st))
    else Ok(InitializeBinding(name, v, st))
  }

  function BindingInitialization(b: Binding, v: Value, ctx: Context, st: State): (r: Result<State, ErrorKind>)
    ensures r.Ok? ==> Extends(st, r.value, -1)
    decreases b
  {
    match b
    case BindingIdentifier(name) => InitializeBoundName(name, v, ctx, st)
    case ArrayBindingPattern(elements) =>
      (match GetIterator(v, st)
       case Err(e) => Err(e)
       case Ok((id, st1)) => IteratorBindingInitialization(elements, id, ctx, st1))
    case ObjectBindingPattern(properties) => ObjectBindingInitialization(properties, v, ctx, st)
  }

  /** The elements of an array pattern, left to right, against one iterator. */
  function IteratorBindingInitialization(items: seq<BindingElementItem>, id: nat, ctx: Context, st: State)
    : (r: Result<State, ErrorKind>)
    requires id < |st.iterators|
    ensures r.Ok? ==> Extends(st, r.value, id)
    decreases items
  {
    if |items| == 0 then Ok(st)
    else
      match IteratorBindingElement(items[0], id, ctx, st)
      case Err(e) => Err(e)
      case Ok(st1) => IteratorBindingInitialization(items[1..], id, ctx, st1)
  }

  function IteratorBindingElement(item: BindingElementItem, id: nat, ctx: Context, st: State)
    : (r: Result<State, ErrorKind>)
    requires id < |st.iterators|
    ensures r.Ok? ==> Extends(st, r.value, id)
    decreases item
  {
    match item
    case BindingElision => Ok(Next(st, id).1)
    case BindingElement(binding, init) =>
      var (v, st1) := Next(st, id);
      var (w, st2) := ApplyDefault(v, init, NameOf(binding), st1);
      BindingInitialization(binding, w, ctx, st2)
    case BindingRestElement(name) =>
      var (arr, st1) := CreateRestArray(st, id);
      InitializeBoundName(name, arr, ctx, st1)
  }

  /** The properties of an object pattern, in source order, all read from `v`. */
  function ObjectBindingInitialization(props: seq<BindingProperty>, v: Value, ctx: Context, st: State)
    : (r: Result<State, ErrorKind>)
    ensures r.Ok? ==> Extends(st, r.value, -1)
    decreases props
  {
    if |props| == 0 then Ok(st)
    else
      match KeyedBindingInitialization(props[0], v, ctx, st)
      case Err(e) => Err(e)
      case Ok(st1) => ObjectBindingInitialization(props[1..], v, ctx, st1)
  }

  /** One property: key, then GetV, then the default, then the target. */
  function KeyedBindingInitialization(p: BindingProperty, v: Value, ctx: Context, st: State)
    : (r: Result<State, ErrorKind>)
    ensures r.Ok? ==> Extends(st, r.value, -1)
    decreases p
  {
    match p
    case SingleNameBinding(name, init) =>
      (match GetV(v, name, st)
       case Err(e) => Err(e)
       case Ok((pv, st1)) =>
         var (w, st2) := ApplyDefault(pv, init, Some(name), st1);
         InitializeBoundName(name, w, ctx, st2))
    case KeyedBinding(pn, target, init) =>
      var (key, st1) := EvaluatePropertyName(pn, st);
      match GetV(v, key, st1)
      case Err(e) => Err(e)
      case Ok((pv, st2)) =>
        var (w, st3) := ApplyDefault(pv, init, NameOf(target), st2);
        BindingInitialization(target, w, ctx, st3)
  }

  // ---------------------------------------------------------------------------
  // Properties
  // ---------------------------------------------------------------------------

  /** The events that bind a name to `v` in the given environment mode. */
  function BindEvents(name: string, v: Value, ctx: Context): seq<Event>
  {
    if ctx.environment == NoEnvironment then [ReferenceEvaluated(name), Stored(name, v)]
    else [Initialized(name, v)]
  }

  /** The value a binding reads back: from the record, or from the store without one. */
  function BoundValue(st: State, name: string, ctx: Context): Option<Value>
  {
    if ctx.environment == NoEnvironment then
      (if name in st.store then Some(st.store[name]) else None)
    else if name in st.record then Some(st.record[name]) else None
  }

  /**
   * InitializeBoundName by mode: without an environment the name is resolved, then
   * stored, and an unresolvable name in strict code is a ReferenceError; with an
   * environment the record is initialized and nothing else changes.
   */
  lemma InitializeBoundNameByMode(name: string, v: Value, ctx: Context, st: State)
    ensures var r := InitializeBoundName(name, v, ctx, st);
            (r.Err? <==> ctx.environment == NoEnvironment && ctx.strict && name !in st.store) &&
            (r.Err? ==> r.error == ReferenceError) &&
            (r.Ok? ==> r.value.trace == st.trace + BindEvents(name, v, ctx) &&
                       BoundValue(r.value, name, ctx) == Some(v) &&
                       r.value.heap == st.heap && r.value.iterators == st.iterators) &&
            (r.Ok? && ctx.environment == NoEnvironment ==> r.value.record == st.record) &&
            (ctx.environment != NoEnvironment ==> r.Ok? && r.value.store == st.store)
  {
  }

  /** Where the cursor stands after the elements: a rest element drains it, others step it once. */
  function CursorAfter(items: seq<BindingElementItem>, pos: nat, n: nat): nat
  {
    if |items| == 0 then pos
    else if items[0].BindingRestElement? then CursorAfter(items[1..], if pos < n then n else pos, n)
    else CursorAfter(items[1..], if pos < n then pos + 1 else pos, n)
  }

  lemma ElementCursor(item: BindingElementItem, id: nat, ctx: Context, st: State)
    requires id < |st.iterators|
    requires IteratorBindingElement(item, id, ctx, st).Ok?
    ensures var c := st.iterators[id];
            var c' := IteratorBindingElement(item, id, ctx, st).value.iterators[id];
            c'.values == c.values &&
            c'.pos == if item.BindingRestElement? then Drained(c).pos else Advanced(c).pos
  {
    match item
    case BindingElision =>
    case BindingElement(binding, init) =>
      var (v, st1) := Next(st, id);
      var (w, st2) := ApplyDefault(v, init, NameOf(binding), st1);
      assert st2.iterators[id] == Advanced(st.iterators[id]);
    case BindingRestElement(name) =>
  }

  /**
   * The elements of an array pattern are processed left to right against the one
   * iterator: each element but a rest steps it once, never past its end, and a rest
   * element drains it; nested patterns never step it.
   */
  lemma {:induction false} IteratorCursorAfter(items: seq<BindingElementItem>, id: nat, ctx: Context, st: State)
    requires id < |st.iterators|
    requires IteratorBindingInitialization(items, id, ctx, st).Ok?
    ensures var c := st.iterators[id];
            var c' := IteratorBindingInitialization(items, id, ctx, st).value.iterators[id];
            c'.values == c.values && c'.pos == CursorAfter(items, c.pos, |c.values|)
    decreases items
  {
    if |items| > 0 {
      ElementCursor(items[0], id, ctx, st);
      var st1 := IteratorBindingElement(items[0], id, ctx, st).value;
      IteratorCursorAfter(items[1..], id, ctx, st1);
    }
  }

  /** No array pattern occurs in the binding, at any depth. */
  predicate NoArrayPattern(b: Binding)
    decreases b
  {
    match b
    case BindingIdentifier(_) => true
    case ArrayBindingPattern(_) => false
    case ObjectBindingPattern(props) => forall i :: 0 <= i < |props| ==> NoArrayPatternIn(props[i])
  }

  predicate NoArrayPatternIn(p: BindingProperty)
    decreases p
  {
    p.SingleNameBinding? || NoArrayPattern(p.target)
  }

  /** Elements of an array pattern none of which holds a nested array pattern, at any depth. */
  predicate FlatElements(items: seq<BindingElementItem>)
  {
    forall i :: 0 <= i < |items| ==> (items[i].BindingElement? ==> NoArrayPattern(items[i].binding))
  }

  /** A binding without array patterns, however deeply nested in object patterns, opens no iterator. */
  lemma {:induction false} BindingOpensNoIterator(b: Binding, v: Value, ctx: Context, st: State)
    requires NoArrayPattern(b)
    requires BindingInitialization(b, v, ctx, st).Ok?
    ensures |BindingInitialization(b, v, ctx, st).value.iterators| == |st.iterators|
    decreases b
  {
    match b
    case BindingIdentifier(name) =>
    case ObjectBindingPattern(props) =>
      PropertiesOpenNoIterator(props, v, ctx, st);
  }

  lemma {:induction false} PropertiesOpenNoIterator(props: seq<BindingProperty>, v: Value, ctx: Context, st: State)
    requires forall i :: 0 <= i < |props| ==> NoArrayPatternIn(props[i])
    requires ObjectBindingInitialization(props, v, ctx, st).Ok?
    ensures |ObjectBindingInitialization(props, v, ctx, st).value.iterators| == |st.iterators|
    decreases props
  {
    if |props| > 0 {
      KeyedOpensNoIterator(props[0], v, ctx, st);
      var st1 := KeyedBindingInitialization(props[0], v, ctx, st).value;
      assert forall i :: 0 <= i < |props[1..]| ==> props[1..][i] == props[i + 1];
      PropertiesOpenNoIterator(props[1..], v, ctx, st1);
    }
  }

  lemma {:induction false} KeyedOpensNoIterator(p: BindingProperty, v: Value, ctx: Context, st: State)
    requires NoArrayPatternIn(p)
    requires KeyedBindingInitialization(p, v, ctx, st).Ok?
    ensures |KeyedBindingInitialization(p, v, ctx, st).value.iterators| == |st.iterators|
    decreases p
  {
    match p
    case SingleNameBinding(name, init) =>
    case KeyedBinding(pn, target, init) =>
      var (key, st1) := EvaluatePropertyName(pn, st);
      var (pv, st2) := GetV(v, key, st1).value;
      var (w, st3) := ApplyDefault(pv, init, NameOf(target), st2);
      BindingOpensNoIterator(target, w, ctx, st3);
  }

  /** The elements of an array pattern without nested array patterns open no further iterator. */
  lemma {:induction false} FlatElementsOpenNoIterator(items: seq<BindingElementItem>, id: nat, ctx: Context, st: State)
    requires id < |st.iterators| && FlatElements(items)
    requires IteratorBindingInitialization(items, id, ctx, st).Ok?
    ensures |IteratorBindingInitialization(items, id, ctx, st).value.iterators| == |st.iterators|
    decreases items
  {
    if |items| > 0 {
      var st1 := IteratorBindingElement(items[0], id, ctx, st).value;
      assert |st1.iterators| == |st.iterators| by {
        match items[0]
        case BindingElision =>
        case BindingElement(binding, init) =>
          var (v, st2) := Next(st, id);
          var (w, st3) := ApplyDefault(v, init, NameOf(binding), st2);
          BindingOpensNoIterator(binding, w, ctx, st3);
        case BindingRestElement(name) =>
      }
      assert FlatElements(items[1..]) by {
        assert forall i :: 0 <= i < |items[1..]| ==> items[1..][i] == items[i + 1];
      }
      FlatElementsOpenNoIterator(items[1..], id, ctx, st1);
    }
  }

  /**
   * An array pattern obtains one iterator from the value before anything else happens,
   * and leaves it where its elements put it; without nested array patterns, it is the only
   * iterator obtained. A value that is not iterable is a TypeError.
   */
  lemma ArrayPatternUsesOneIterator(items: seq<BindingElementItem>, v: Value, ctx: Context, st: State)
    ensures IterationValues(v, st.heap).None? ==>
              BindingInitialization(ArrayBindingPattern(items), v, ctx, st) == Err(TypeError)
    ensures BindingInitialization(ArrayBindingPattern(items), v, ctx, st).Ok? ==>
              var st' := BindingInitialization(ArrayBindingPattern(items), v, ctx, st).value;
              var id := |st.iterators|;
              var vals := IterationValues(v, st.heap).value;
              |st.trace| < |st'.trace| && st'.trace[|st.trace|] == IteratorOpened(id) &&
              id < |st'.iterators| && st'.iterators[id].values == vals &&
              st'.iterators[id].pos == CursorAfter(items, 0, |vals|) &&
              (FlatElements(items) ==> |st'.iterators| == id + 1)
  {
    if BindingInitialization(ArrayBindingPattern(items), v, ctx, st).Ok? {
      var (id, st1) := GetIterator(v, st).value;
      var st' := IteratorBindingInitialization(items, id, ctx, st1).value;
      IteratorCursorAfter(items, id, ctx, st1);
      assert st1.trace[|st.trace|] == IteratorOpened(id);
      assert st1.trace <= st'.trace;
      if FlatElements(items) {
        FlatElementsOpenNoIterator(items, id, ctx, st1);
      }
    }
  }

  /** An elision steps the iterator once and binds nothing. */
  lemma ElisionDiscards(id: nat, ctx: Context, st: State)
    requires id < |st.iterators|
    ensures IteratorBindingElement(BindingElision, id, ctx, st) ==
            Ok(st.(trace := st.trace + [IteratorNext(id)],
                   iterators := st.iterators[id := Advanced(st.iterators[id])]))
  {
  }

  /**
   * A single-name element pulls exactly one value, undefined once the iterator is
   * exhausted; its initializer runs exactly when that value is undefined, and the name
   * is bound to the pulled value or to the initializer's.
   */
  lemma SingleNameElementOrder(name: string, tag: nat, d: Value, id: nat, ctx: Context, st: State)
    requires id < |st.iterators|
    requires IteratorBindingElement(BindingElement(BindingIdentifier(name), Some(Effect(tag, d))), id, ctx, st).Ok?
    ensures var c := st.iterators[id];
            var st' := IteratorBindingElement(BindingElement(BindingIdentifier(name), Some(Effect(tag, d))), id, ctx, st).value;
            var bound := if Pulled(c) == Undefined then d else Pulled(c);
            st'.iterators[id] == Advanced(c) &&
            st'.trace == st.trace + [IteratorNext(id)] +
                         (if Pulled(c) == Undefined then [Evaluated(tag)] else []) +
                         BindEvents(name, bound, ctx) &&
            BoundValue(st', name, ctx) == Some(bound)
  {
    var c := st.iterators[id];
    var (v, st1) := Next(st, id);
    var (w, st2) := ApplyDefault(v, Some(Effect(tag, d)), Some(name), st1);
    assert w == (if Pulled(c) == Undefined then d else Pulled(c));
    assert st2.trace == st.trace + [IteratorNext(id)] + (if Pulled(c) == Undefined then [Evaluated(tag)] else []);
    InitializeBoundNameByMode(name, w, ctx, st2);
  }

  /**
   * An anonymous function initializer of a single-name element receives the bound
   * name as its `name` property.
   */
  lemma AnonymousFunctionNamed(name: string, tag: nat, id: nat, ctx: Context, st: State)
    requires id < |st.iterators| && Pulled(st.iterators[id]) == Undefined
    requires IteratorBindingElement(BindingElement(BindingIdentifier(name), Some(AnonymousFunction(tag))), id, ctx, st).Ok?
    ensures var st' := IteratorBindingElement(BindingElement(BindingIdentifier(name), Some(AnonymousFunction(tag))), id, ctx, st).value;
            BoundValue(st', name, ctx) == Some(Object(|st.heap|)) &&
            |st.heap| < |st'.heap| && st'.heap[|st.heap|].properties == map["name" := String(name)]
  {
    var (v, st1) := Next(st, id);
    var (w, st2) := ApplyDefault(v, Some(AnonymousFunction(tag)), Some(name), st1);
    InitializeBoundNameByMode(name, w, ctx, st2);
  }

  /** A pattern target passes an anonymous function default on without naming it. */
  lemma PatternTargetUnnamed(target: Binding, tag: nat, st: State)
    requires !target.BindingIdentifier?
    ensures var (w, st') := ApplyDefault(Undefined, Some(AnonymousFunction(tag)), NameOf(target), st);
            w == Object(|st.heap|) && st'.heap[|st.heap|].properties == map[] &&
            NamesNoFunction(st'.trace[|st.trace|..])
  {
  }

  /**
   * A rest element drains the iterator into a fresh array holding exactly the values
   * not yet taken, and binds that array.
   */
  lemma RestBindsRemainder(name: string, id: nat, ctx: Context, st: State)
    requires id < |st.iterators|
    requires IteratorBindingElement(BindingRestElement(name), id, ctx, st).Ok?
    ensures var c := st.iterators[id];
            var st' := IteratorBindingElement(BindingRestElement(name), id, ctx, st).value;
            st'.iterators[id] == Drained(c) &&
            st'.heap == st.heap + [ObjectData(map[], Some(Remaining(c)))] &&
            BoundValue(st', name, ctx) == Some(Object(|st.heap|)) &&
            st'.trace == st.trace + [RestCollected(id, |st.heap|)] + BindEvents(name, Object(|st.heap|), ctx)
  {
    var (arr, st1) := CreateRestArray(st, id);
    InitializeBoundNameByMode(name, arr, ctx, st1);
  }

  /** The key a property reads, and the state once the key is known. */
  function PropertyKey(p: BindingProperty, st: State): (string, State)
  {
    match p
    case SingleNameBinding(name, _) => (name, st)
    case KeyedBinding(pn, _, _) => EvaluatePropertyName(pn, st)
  }

  /**
   * A property is processed key first: a shorthand uses its bound name, a literal name
   * itself, a computed name the converted value of its expression; the key's events
   * come first, the single read of that key from `v` next, and only then the default
   * and the binding.
   */
  lemma KeyedPropertyOrder(p: BindingProperty, v: Value, ctx: Context, st: State)
    requires KeyedBindingInitialization(p, v, ctx, st).Ok?
    ensures var (key, st1) := PropertyKey(p, st);
            var st' := KeyedBindingInitialization(p, v, ctx, st).value;
            (p.SingleNameBinding? ==> key == p.boundName && st1 == st) &&
            (p.KeyedBinding? && p.propertyName.LiteralName? ==> key == p.propertyName.literal && st1 == st) &&
            (p.KeyedBinding? && p.propertyName.ComputedName? ==>
               key == ToPropertyKey(Evaluate(p.propertyName.expr, st).0)) &&
            st.trace <= st1.trace && |st1.trace| < |st'.trace| &&
            st'.trace[..|st1.trace| + 1] == st1.trace + [PropertyRead(v, key)]
  {
    var (key, st1) := PropertyKey(p, st);
    var st2 := GetV(v, key, st1).value.1;
    assert st2.trace == st1.trace + [PropertyRead(v, key)];
    var st' := KeyedBindingInitialization(p, v, ctx, st).value;
    assert Extends(st2, st', -1) by {
      match p
      case SingleNameBinding(name, init) =>
        var (w, st3) := ApplyDefault(GetV(v, key, st1).value.0, init, Some(name), st2);
      case KeyedBinding(pn, target, init) =>
        var (w, st3) := ApplyDefault(GetV(v, key, st1).value.0, init, NameOf(target), st2);
    }
    assert st'.trace[..|st2.trace|] == st2.trace;
  }

  /** The shorthand `{x = d}` behaves exactly as `{"x": x = d}`. */
  lemma ShorthandIsLiteralKeyed(name: string, init: Option<Expr>, v: Value, ctx: Context, st: State)
    ensures KeyedBindingInitialization(SingleNameBinding(name, init), v, ctx, st) ==
            KeyedBindingInitialization(KeyedBinding(LiteralName(name), BindingIdentifier(name), init), v, ctx, st)
  {
  }

  /**
   * An object pattern does not check its value up front: without properties any value
   * is accepted, and with one the first read from undefined or null throws a TypeError.
   */
  lemma ObjectPatternOnNullish(props: seq<BindingProperty>, v: Value, ctx: Context, st: State)
    requires v == Undefined || v == Null
    ensures |props| == 0 <==> ObjectBindingInitialization(props, v, ctx, st).Ok?
    ensures |props| > 0 ==> ObjectBindingInitialization(props, v, ctx, st) == Err(TypeError)
  {
    if |props| > 0 {
      var (key, st1) := PropertyKey(props[0], st);
      assert GetV(v, key, st1) == Err(TypeError);
    }
  }
}
