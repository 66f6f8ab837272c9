// The meaning of the code emitted for destructuring assignment (`[a, b] = v`,
// `({x, k: y} = v)`): DestructuringAssignmentEvaluation,
// IteratorDestructuringAssignmentEvaluation and KeyedDestructuringAssignmentEvaluation
// as functions over the run-time state, and the evaluation order they fix.
//
// Unlike binding initialization, the targets here are references evaluated at run
// time, anonymous function defaults are not named, and an object pattern does not
// check its value before its first read.

module Destructuring {
  import opened Wrappers
  import opened Values
  import opened Runtime

  /** The target of an element or property: a simple reference, or a nested pattern. */
  datatype Target =
    | Reference(name: string)
    | Pattern(pattern: AssignmentPattern)

  datatype AssignmentPattern =
    | ArrayAssignmentPattern(elements: seq<AssignmentElementItem>)
    | ObjectAssignmentPattern(properties: seq<AssignmentProperty>)

  datatype AssignmentElementItem =
    | Elision
    | AssignmentElement(target: Target, initializer: Option<Expr>)
    | AssignmentRestElement(restTarget: Target)

  /** `{x = d}` uses the identifier as key and target; `{k: target = d}` separates them. */
  datatype AssignmentProperty =
    | ShorthandProperty(identifier: string, shorthandDefault: Option<Expr>)
    | KeyedProperty(propertyName: PropertyName, keyedTarget: Target, keyedDefault: Option<Expr>)

  function DestructuringAssignmentEvaluation(p: AssignmentPattern, v: Value, strict: bool, st: State)
    : (r: Result<State, ErrorKind>)
    ensures r.Ok? ==> Extends(st, r.value, -1)
    decreases p
  {
    match p
    case ArrayAssignmentPattern(elements) =>
      (match GetIterator(v, st)
       case Err(e) => Err(e)
       case Ok((id, st1)) => IteratorDestructuringAssignment(elements, id, strict, st1))
    case ObjectAssignmentPattern(properties) => ObjectDestructuringAssignment(properties, v, strict, st)
  }

  /** The elements of an array pattern, left to right, against one iterator. */
  function IteratorDestructuringAssignment(items: seq<AssignmentElementItem>, id: nat, strict: bool, st: State)
    : (r: Result<State, ErrorKind>)
    requires id < |st.iterators|
    ensures r.Ok? ==> Extends(st, r.value, id)
    decreases items
  {
    if |items| == 0 then Ok(st)
    else
      match IteratorDestructuringAssignmentEvaluation(items[0], id, strict, st)
      case Err(e) => Err(e)
      case Ok(st1) => IteratorDestructuringAssignment(items[1..], id, strict, st1)
  }

  /**
   * One element: a reference target is evaluated before the iterator steps; a rest
   * element builds its array before its reference is evaluated.
   */
  function IteratorDestructuringAssignmentEvaluation(item: AssignmentElementItem, id: nat, strict: bool, st: State)
    : (r: Result<State, ErrorKind>)
    requires id < |st.iterators|
    ensures r.Ok? ==> Extends(st, r.value, id)
    decreases item
  {
    match item
    case Elision => Ok(Next(st, id).1)
    case AssignmentElement(target, init) =>
      (match target
       case Reference(name) =>
         var st1 := ResolveBinding(name, st);
         var (v, st2) := Next(st1, id);
         var (w, st3) := ApplyDefault(v, init, None, st2);
         PutValue(name, w, strict, st3)
       case Pattern(pattern) =>
         var (v, st1) := Next(st, id);
         var (w, st2) := ApplyDefault(v, init, None, st1);
         DestructuringAssignmentEvaluation(pattern, w, strict, st2))
    case AssignmentRestElement(target) =>
      var (arr, st1) := CreateRestArray(st, id);
      match target
      case Reference(name) => PutValue(name, arr, strict, ResolveBinding(name, st1))
      case Pattern(pattern) => DestructuringAssignmentEvaluation(pattern, arr, strict, st1)
  }

  /** The properties of an object pattern, in source order, all read from `v`. */
  function ObjectDestructuringAssignment(props: seq<AssignmentProperty>, v: Value, strict: bool, st: State)
    : (r: Result<State, ErrorKind>)
    ensures r.Ok? ==> Extends(st, r.value, -1)
    decreases props
  {
    if |props| == 0 then Ok(st)
    else
      match KeyedDestructuringAssignmentEvaluation(props[0], v, strict, st)
      case Err(e) => Err(e)
      case Ok(st1) => ObjectDestructuringAssignment(props[1..], v, strict, st1)
  }

  /** One property: key, then GetV, then the default, and only then the target. */
  function KeyedDestructuringAssignmentEvaluation(p: AssignmentProperty, v: Value, strict: bool, st: State)
    : (r: Result<State, ErrorKind>)
    ensures r.Ok? ==> Extends(st, r.value, -1)
    decreases p
  {
    match p
    case ShorthandProperty(name, init) =>
      (match GetV(v, name, st)
       case Err(e) => Err(e)
       case Ok((pv, st1)) =>
         var (w, st2) := ApplyDefault(pv, init, None, st1);
         PutValue(name, w, strict, ResolveBinding(name, st2)))
    case KeyedProperty(pn, target, init) =>
      var (key, st1) := EvaluatePropertyName(pn, st);
      match GetV(v, key, st1)
      case Err(e) => Err(e)
      case Ok((pv, st2)) =>
        var (w, st3) := ApplyDefault(pv, init, None, st2);
        match target
        case Reference(name) => PutValue(name, w, strict, ResolveBinding(name, st3))
        case Pattern(pattern) => DestructuringAssignmentEvaluation(pattern, w, strict, st3)
  }

  /**
   * The assignment expression `pattern = rhs`: the right-hand side is evaluated first,
   * destructured, and is itself the completion value when the expression has one.
   */
  function DestructuringAssignmentExpression(p: AssignmentPattern, rhs: Expr, hasCompletion: bool,
                                             strict: bool, st: State)
    : (r: Result<(Option<Value>, State), ErrorKind>)
    ensures r.Ok? ==> Extends(st, r.value.1, -1)
  {
    var (rv, st1) := Evaluate(rhs, st);
    match DestructuringAssignmentEvaluation(p, rv, strict, st1)
    case Err(e) => Err(e)
    case Ok(st2) => Ok((if hasCompletion then Some(rv) else None, st2))
  }

  // ---------------------------------------------------------------------------
  // Properties
  // ---------------------------------------------------------------------------

  /** The value a default yields, stated without the state: literal, effect or new function. */
  function DefaultValue(v: Value, init: Option<Expr>, heapSize: nat): Value
  {
    if v != Undefined || init.None? then v
    else match init.value
      case Lit(d) => d
      case Effect(_, d) => d
      case AnonymousFunction(_) => Object(heapSize)
  }

  /** The events a default leaves: none unless the initializer runs and is observable. */
  function DefaultEvents(v: Value, init: Option<Expr>): seq<Event>
  {
    if v != Undefined || init.None? then []
    else match init.value
      case Lit(_) => []
      case Effect(tag, _) => [Evaluated(tag)]
      case AnonymousFunction(tag) => [Evaluated(tag)]
  }

  /**
   * A default in a destructuring assignment: the initializer runs only when the value
   * is undefined, and a function it creates is not named.
   */
  lemma UnnamedDefault(v: Value, init: Option<Expr>, st: State)
    ensures var (w, st') := ApplyDefault(v, init, None, st);
            w == DefaultValue(v, init, |st.heap|) &&
            st'.trace == st.trace + DefaultEvents(v, init) &&
            st'.store == st.store && st'.iterators == st.iterators &&
            (init.Some? && init.value.AnonymousFunction? && v == Undefined ==>
               st'.heap == st.heap + [ObjectData(map[], None)])
  {
  }

  /**
   * An element with a reference target: the reference is evaluated, then the iterator
   * steps once, then the default may run, then the value is stored; in strict code an
   * unresolvable name is a ReferenceError after all of this.
   */
  lemma ReferenceBeforeNext(name: string, init: Option<Expr>, id: nat, strict: bool, st: State)
    requires id < |st.iterators|
    ensures var c := st.iterators[id];
            var r := IteratorDestructuringAssignmentEvaluation(AssignmentElement(Reference(name), init), id, strict, st);
            var w := DefaultValue(Pulled(c), init, |st.heap|);
            (r.Err? <==> strict && name !in st.store) &&
            (r.Ok? ==>
               r.value.trace == st.trace + [ReferenceEvaluated(name), IteratorNext(id)] +
                                DefaultEvents(Pulled(c), init) + [Stored(name, w)] &&
               r.value.store == st.store[name := w] &&
               r.value.iterators[id] == Advanced(c))
  {
    var c := st.iterators[id];
    var st1 := ResolveBinding(name, st);
    var (v, st2) := Next(st1, id);
    UnnamedDefault(v, init, st2);
  }

  /**
   * A rest element with a reference target: the iterator is drained into a fresh array
   * holding the values not yet taken, and only then is the reference evaluated and the
   * array stored.
   */
  lemma RestArrayBeforeReference(name: string, id: nat, strict: bool, st: State)
    requires id < |st.iterators|
    ensures var c := st.iterators[id];
            var r := IteratorDestructuringAssignmentEvaluation(AssignmentRestElement(Reference(name)), id, strict, st);
            var arr := Object(|st.heap|);
            (r.Err? <==> strict && name !in st.store) &&
            (r.Ok? ==>
               r.value.trace == st.trace + [RestCollected(id, |st.heap|), ReferenceEvaluated(name), Stored(name, arr)] &&
               r.value.heap == st.heap + [ObjectData(map[], Some(Remaining(c)))] &&
               r.value.store == st.store[name := arr] &&
               r.value.iterators[id] == Drained(c))
  {
  }

  /** A nested pattern in an element is destructured from the pulled, possibly defaulted, value. */
  lemma NestedElementPattern(pattern: AssignmentPattern, init: Option<Expr>, id: nat, strict: bool, st: State)
    requires id < |st.iterators|
    ensures var c := st.iterators[id];
            exists st2: State ::
              st2.trace == st.trace + [IteratorNext(id)] + DefaultEvents(Pulled(c), init) &&
              id < |st2.iterators| && st2.iterators[id] == Advanced(c) && st2.store == st.store &&
              IteratorDestructuringAssignmentEvaluation(AssignmentElement(Pattern(pattern), init), id, strict, st) ==
              DestructuringAssignmentEvaluation(pattern, DefaultValue(Pulled(c), init, |st.heap|), strict, st2)
  {
    var (v, st1) := Next(st, id);
    var (w, st2) := ApplyDefault(v, init, None, st1);
    UnnamedDefault(v, init, st1);
    assert st2.iterators[id] == Advanced(st.iterators[id]);
  }

  /** Where the cursor stands after the elements: a rest element drains it, others step it once. */
  function CursorAfter(items: seq<AssignmentElementItem>, pos: nat, n: nat): nat
  {
    if |items| == 0 then pos
    else if items[0].AssignmentRestElement? then CursorAfter(items[1..], if pos < n then n else pos, n)
    else CursorAfter(items[1..], if pos < n then pos + 1 else pos, n)
  }

  lemma ElementCursor(item: AssignmentElementItem, id: nat, strict: bool, st: State)
    requires id < |st.iterators|
    requires IteratorDestructuringAssignmentEvaluation(item, id, strict, st).Ok?
    ensures var c := st.iterators[id];
            var c' := IteratorDestructuringAssignmentEvaluation(item, id, strict, st).value.iterators[id];
            c'.values == c.values &&
            c'.pos == if item.AssignmentRestElement? then Drained(c).pos else Advanced(c).pos
  {
    match item
    case Elision =>
    case AssignmentElement(target, init) =>
      match target {
        case Reference(name) =>
          ReferenceBeforeNext(name, init, id, strict, st);
        case Pattern(pattern) =>
          var (v, st1) := Next(st, id);
          var (w, st2) := ApplyDefault(v, init, None, st1);
          assert st2.iterators[id] == Advanced(st.iterators[id]);
      }
    case AssignmentRestElement(target) =>
  }

  /**
   * The elements are processed left to right against the one iterator: each element
   * but a rest steps it once, never past its end, a rest element drains it, and nested
   * patterns never step it.
   */
  lemma {:induction false} IteratorCursorAfter(items: seq<AssignmentElementItem>, id: nat, strict: bool, st: State)
    requires id < |st.iterators|
    requires IteratorDestructuringAssignment(items, id, strict, st).Ok?
    ensures var c := st.iterators[id];
            var c' := IteratorDestructuringAssignment(items, id, strict, st).value.iterators[id];
            c'.values == c.values && c'.pos == CursorAfter(items, c.pos, |c.values|)
    decreases items
  {
    if |items| > 0 {
      ElementCursor(items[0], id, strict, st);
      var st1 := IteratorDestructuringAssignmentEvaluation(items[0], id, strict, st).value;
      IteratorCursorAfter(items[1..], id, strict, st1);
    }
  }

  /**
   * An array pattern obtains one iterator from the value before anything else happens
   * and leaves it where its elements put it; a value that is not iterable is a
   * TypeError.
   */
  lemma ArrayPatternUsesOneIterator(items: seq<AssignmentElementItem>, v: Value, strict: bool, st: State)
    ensures IterationValues(v, st.heap).None? ==>
              DestructuringAssignmentEvaluation(ArrayAssignmentPattern(items), v, strict, st) == Err(TypeError)
    ensures DestructuringAssignmentEvaluation(ArrayAssignmentPattern(items), v, strict, st).Ok? ==>
              var st' := DestructuringAssignmentEvaluation(ArrayAssignmentPattern(items), v, strict, st).value;
              var id := |st.iterators|;
              var vals := IterationValues(v, st.heap).value;
              |st.trace| < |st'.trace| && st'.trace[|st.trace|] == IteratorOpened(id) &&
              id < |st'.iterators| && st'.iterators[id].values == vals &&
              st'.iterators[id].pos == CursorAfter(items, 0, |vals|)
  {
    if DestructuringAssignmentEvaluation(ArrayAssignmentPattern(items), v, strict, st).Ok? {
      var (id, st1) := GetIterator(v, st).value;
      var st' := IteratorDestructuringAssignment(items, id, strict, st1).value;
      IteratorCursorAfter(items, id, strict, st1);
      assert st1.trace[|st.trace|] == IteratorOpened(id);
      assert st1.trace <= st'.trace;
    }
  }

  /** The key a property reads, and the state once the key is known. */
  function PropertyKey(p: AssignmentProperty, st: State): (string, State)
  {
    match p
    case ShorthandProperty(name, _) => (name, st)
    case KeyedProperty(pn, _, _) => EvaluatePropertyName(pn, st)
  }

  /** The default and the target of a property, whatever its form. */
  function DefaultOf(p: AssignmentProperty): Option<Expr>
  {
    if p.ShorthandProperty? then p.shorthandDefault else p.keyedDefault
  }

  function TargetOf(p: AssignmentProperty): Target
  {
    if p.ShorthandProperty? then Reference(p.identifier) else p.keyedTarget
  }

  /**
   * A property with a reference target: the key first (a shorthand uses its name),
   * then the one read of that key from `v`, then the default, and only then the
   * reference is evaluated and the value stored.
   */
  lemma ReadBeforeReference(p: AssignmentProperty, v: Value, strict: bool, st: State)
    requires TargetOf(p).Reference?
    requires KeyedDestructuringAssignmentEvaluation(p, v, strict, st).Ok?
    ensures var (key, st1) := PropertyKey(p, st);
            var pv := GetV(v, key, st1).value.0;
            var name := TargetOf(p).name;
            var st' := KeyedDestructuringAssignmentEvaluation(p, v, strict, st).value;
            (p.ShorthandProperty? ==> key == name && st1 == st) &&
            st.trace <= st1.trace &&
            st'.trace == st1.trace + [PropertyRead(v, key)] + DefaultEvents(pv, DefaultOf(p)) +
                         [ReferenceEvaluated(name), Stored(name, DefaultValue(pv, DefaultOf(p), |st1.heap|))]
  {
    var (key, st1) := PropertyKey(p, st);
    var (pv, st2) := GetV(v, key, st1).value;
    UnnamedDefault(pv, DefaultOf(p), st2);
  }

  /** The shorthand `{x = d}` behaves exactly as `{"x": x = d}`. */
  lemma ShorthandIsLiteralKeyed(name: string, init: Option<Expr>, v: Value, strict: bool, st: State)
    ensures KeyedDestructuringAssignmentEvaluation(ShorthandProperty(name, init), v, strict, st) ==
            KeyedDestructuringAssignmentEvaluation(KeyedProperty(LiteralName(name), Reference(name), init), v, strict, st)
  {
  }

  /**
   * An object pattern does not check its value up front: without properties undefined
   * and null are accepted, and with one the first read throws a TypeError.
   */
  lemma ObjectPatternOnNullish(props: seq<AssignmentProperty>, v: Value, strict: bool, st: State)
    requires v == Undefined || v == Null
    ensures |props| == 0 <==> ObjectDestructuringAssignment(props, v, strict, st).Ok?
    ensures |props| > 0 ==> ObjectDestructuringAssignment(props, v, strict, st) == Err(TypeError)
  {
    if |props| > 0 {
      var (key, st1) := PropertyKey(props[0], st);
      assert GetV(v, key, st1) == Err(TypeError);
    }
  }

  /** The number of property reads in a trace. */
  function ReadCount(events: seq<Event>): nat
  {
    if |events| == 0 then 0
    else (if events[0].PropertyRead? then 1 else 0) + ReadCount(events[1..])
  }

  /** Every property read in a trace reads from `v`. */
  predicate ReadsOnlyFrom(events: seq<Event>, v: Value)
  {
    forall i :: 0 <= i < |events| && events[i].PropertyRead? ==> events[i].base == v
  }

  lemma {:induction false} ReadCountAppend(a: seq<Event>, b: seq<Event>)
    ensures ReadCount(a + b) == ReadCount(a) + ReadCount(b)
    decreases |a|
  {
    if |a| > 0 {
      assert (a + b)[0] == a[0] && (a + b)[1..] == a[1..] + b;
      ReadCountAppend(a[1..], b);
    } else {
      assert a + b == b;
    }
  }

  /** Object patterns whose properties store into references only. */
  predicate FlatProperties(props: seq<AssignmentProperty>)
  {
    forall i :: 0 <= i < |props| ==> TargetOf(props[i]).Reference?
  }

  /** A trace segment without property reads. */
  predicate NoReads(events: seq<Event>)
  {
    forall i :: 0 <= i < |events| ==> !events[i].PropertyRead?
  }

  lemma {:induction false} NoReadsCount(events: seq<Event>)
    requires NoReads(events)
    ensures ReadCount(events) == 0
    decreases |events|
  {
    if |events| > 0 {
      assert NoReads(events[1..]) by {
        forall i | 0 <= i < |events[1..]| ensures !events[1..][i].PropertyRead? {
          assert events[1..][i] == events[i + 1];
        }
      }
      NoReadsCount(events[1..]);
    }
  }

  /** Evaluating a property name reads no property. */
  lemma KeyReadsNothing(p: AssignmentProperty, st: State)
    ensures var st1 := PropertyKey(p, st).1;
            st.trace <= st1.trace && NoReads(st1.trace[|st.trace|..])
  {
    var st1 := PropertyKey(p, st).1;
    if p.KeyedProperty? && p.propertyName.ComputedName? {
      match p.propertyName.expr
      case Lit(_) =>
        assert st1.trace[|st.trace|..] == [];
      case Effect(tag, _) =>
        assert st1.trace[|st.trace|..] == [Evaluated(tag)];
      case AnonymousFunction(tag) =>
        assert st1.trace[|st.trace|..] == [Evaluated(tag)];
    } else {
      assert st1.trace[|st.trace|..] == [];
    }
  }

  /** The events of one flat property: one read from `v`, none other. */
  lemma FlatPropertyReads(p: AssignmentProperty, v: Value, strict: bool, st: State)
    requires TargetOf(p).Reference?
    requires KeyedDestructuringAssignmentEvaluation(p, v, strict, st).Ok?
    ensures var st' := KeyedDestructuringAssignmentEvaluation(p, v, strict, st).value;
            st.trace <= st'.trace &&
            ReadCount(st'.trace[|st.trace|..]) == 1 && ReadsOnlyFrom(st'.trace[|st.trace|..], v)
  {
    ReadBeforeReference(p, v, strict, st);
    KeyReadsNothing(p, st);
    var (key, st1) := PropertyKey(p, st);
    var pv := GetV(v, key, st1).value.0;
    var name := TargetOf(p).name;
    var st' := KeyedDestructuringAssignmentEvaluation(p, v, strict, st).value;
    var keyEvents := st1.trace[|st.trace|..];
    var d := DefaultEvents(pv, DefaultOf(p));
    var tail := d + [ReferenceEvaluated(name), Stored(name, DefaultValue(pv, DefaultOf(p), |st1.heap|))];
    assert NoReads(tail) by {
      assert d == [] || (|d| == 1 && d[0].Evaluated?);
    }
    EventsAssoc(st1.trace + [PropertyRead(v, key)], d,
                [ReferenceEvaluated(name), Stored(name, DefaultValue(pv, DefaultOf(p), |st1.heap|))]);
    assert st1.trace == st.trace + keyEvents;
    TraceSuffix(st.trace, keyEvents, [PropertyRead(v, key)], tail, st'.trace);
    OneRead(keyEvents, PropertyRead(v, key), tail);
  }

  lemma EventsAssoc(a: seq<Event>, b: seq<Event>, c: seq<Event>)
    ensures (a + b) + c == a + (b + c)
  {
  }

  /** A trace that extends `before` by `a`, then `b`, then `c` has those three as its new part. */
  lemma TraceSuffix(before: seq<Event>, a: seq<Event>, b: seq<Event>, c: seq<Event>, after: seq<Event>)
    requires after == (before + a) + b + c
    ensures before <= after && after[|before|..] == a + (b + c)
  {
  }

  /** Events without reads around one read: one read in all, of that read's base. */
  lemma OneRead(a: seq<Event>, e: Event, b: seq<Event>)
    requires NoReads(a) && NoReads(b) && e.PropertyRead?
    ensures ReadCount(a + ([e] + b)) == 1 && ReadsOnlyFrom(a + ([e] + b), e.base)
  {
    NoReadsCount(a);
    NoReadsCount(b);
    ReadCountAppend(a, [e] + b);
    ReadCountAppend([e], b);
    var all := a + ([e] + b);
    assert forall i :: 0 <= i < |a| ==> all[i] == a[i];
    assert forall i :: |a| < i < |all| ==> all[i] == b[i - |a| - 1];
    assert all[|a|] == e;
  }

  /**
   * Every property of a flat object pattern reads from the same source value, each
   * exactly once: the trace gains one read per property and no read of anything else.
   */
  lemma {:induction false} FlatObjectPatternReads(props: seq<AssignmentProperty>, v: Value, strict: bool, st: State)
    requires FlatProperties(props)
    requires ObjectDestructuringAssignment(props, v, strict, st).Ok?
    ensures var st' := ObjectDestructuringAssignment(props, v, strict, st).value;
            st.trace <= st'.trace &&
            ReadCount(st'.trace[|st.trace|..]) == |props| && ReadsOnlyFrom(st'.trace[|st.trace|..], v)
    decreases props
  {
    var st' := ObjectDestructuringAssignment(props, v, strict, st).value;
    if |props| == 0 {
      assert st'.trace[|st.trace|..] == [];
    } else {
      var st1 := KeyedDestructuringAssignmentEvaluation(props[0], v, strict, st).value;
      FlatPropertyReads(props[0], v, strict, st);
      assert FlatProperties(props[1..]) by {
        forall i | 0 <= i < |props[1..]| ensures TargetOf(props[1..][i]).Reference? {
          assert props[1..][i] == props[i + 1];
        }
      }
      FlatObjectPatternReads(props[1..], v, strict, st1);
      ReadsCompose(st.trace, st1.trace, st'.trace, v, |props| - 1);
    }
  }

  /** A trace extended twice: the reads of the two new parts add up, all from `v`. */
  lemma ReadsCompose(t0: seq<Event>, t1: seq<Event>, t2: seq<Event>, v: Value, n: nat)
    requires t0 <= t1 && t1 <= t2
    requires ReadCount(t1[|t0|..]) == 1 && ReadsOnlyFrom(t1[|t0|..], v)
    requires ReadCount(t2[|t1|..]) == n && ReadsOnlyFrom(t2[|t1|..], v)
    ensures t0 <= t2 && ReadCount(t2[|t0|..]) == n + 1 && ReadsOnlyFrom(t2[|t0|..], v)
  {
    var a := t1[|t0|..];
    var b := t2[|t1|..];
    assert t2[|t0|..] == a + b;
    ReadCountAppend(a, b);
    assert forall i :: 0 <= i < |a| ==> (a + b)[i] == a[i];
    assert forall i :: |a| <= i < |a| + |b| ==> (a + b)[i] == b[i - |a|];
  }

  /** The completion value of `pattern = rhs` is the right-hand side's value. */
  lemma CompletionIsRightHandSide(p: AssignmentPattern, rhs: Expr, strict: bool, st: State)
    ensures var r := DestructuringAssignmentExpression(p, rhs, true, strict, st);
            r.Ok? ==> r.value.0 == Some(Evaluate(rhs, st).0)
    ensures var r := DestructuringAssignmentExpression(p, rhs, false, strict, st);
            r.Ok? ==> r.value.0 == None
    ensures var (rv, st1) := Evaluate(rhs, st);
            DestructuringAssignmentExpression(p, rhs, true, strict, st).Err? <==>
            DestructuringAssignmentEvaluation(p, rv, strict, st1).Err?
  {
  }
}
