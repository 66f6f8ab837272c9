// The code emitted for destructuring assignment, run on the machine: each method
// performs the steps the generated code performs, in place, and is proved to have the
// meaning given by the functions of the same name in `Destructuring`.

module DestructuringAssignmentGenerator {
  import opened Wrappers
  import opened Values
  import opened Runtime
  import D = Destructuring
  import G = BindingInitializationGenerator

  method DestructuringAssignmentEvaluation(m: Machine, p: D.AssignmentPattern, v: Value, strict: bool)
    returns (err: Option<ErrorKind>)
    modifies m
    ensures G.Outcome(err, m.Snapshot()) == D.DestructuringAssignmentEvaluation(p, v, strict, old(m.Snapshot()))
    decreases p
  {
    match p
    case ArrayAssignmentPattern(elements) =>
      var it := m.OpenIterator(v);
      if it.Err? {
        return Some(it.error);
      }
      err := IteratorDestructuringAssignment(m, elements, it.value, strict);
    case ObjectAssignmentPattern(properties) =>
      err := ObjectDestructuringAssignment(m, properties, v, strict);
  }

  /** The element loop: every element runs against the same iterator. */
  method IteratorDestructuringAssignment(m: Machine, items: seq<D.AssignmentElementItem>, id: nat, strict: bool)
    returns (err: Option<ErrorKind>)
    requires id < |m.iterators|
    modifies m
    ensures G.Outcome(err, m.Snapshot()) == D.IteratorDestructuringAssignment(items, id, strict, old(m.Snapshot()))
    decreases items
  {
    ghost var st0 := m.Snapshot();
    var i := 0;
    while i < |items|
      invariant 0 <= i <= |items|
      invariant id < |m.iterators|
      invariant D.IteratorDestructuringAssignment(items[i..], id, strict, m.Snapshot()) ==
                D.IteratorDestructuringAssignment(items, id, strict, st0)
    {
      assert items[i..][0] == items[i] && items[i..][1..] == items[i + 1..];
      err := IteratorDestructuringAssignmentEvaluation(m, items[i], id, strict);
      if err.Some? {
        return;
      }
      i := i + 1;
    }
    err := None;
  }

  method IteratorDestructuringAssignmentEvaluation(m: Machine, item: D.AssignmentElementItem, id: nat, strict: bool)
    returns (err: Option<ErrorKind>)
    requires id < |m.iterators|
    modifies m
    ensures G.Outcome(err, m.Snapshot()) ==
            D.IteratorDestructuringAssignmentEvaluation(item, id, strict, old(m.Snapshot()))
    decreases item
  {
    match item
    case Elision =>
      var _ := m.IteratorNextOrUndefined(id);
      err := None;
    case AssignmentElement(target, init) =>
      match target {
        case Reference(name) =>
          m.ResolveReference(name);
          var v := m.IteratorNextOrUndefined(id);
          var w := m.ApplyInitializer(v, init, None);
          err := m.Store(name, w, strict);
        case Pattern(pattern) =>
          var v := m.IteratorNextOrUndefined(id);
          var w := m.ApplyInitializer(v, init, None);
          err := DestructuringAssignmentEvaluation(m, pattern, w, strict);
      }
    case AssignmentRestElement(target) =>
      var arr := m.CollectRest(id);
      match target {
        case Reference(name) =>
          m.ResolveReference(name);
          err := m.Store(name, arr, strict);
        case Pattern(pattern) =>
          err := DestructuringAssignmentEvaluation(m, pattern, arr, strict);
      }
  }

  /** The property loop: every property reads from the same source value. */
  method ObjectDestructuringAssignment(m: Machine, props: seq<D.AssignmentProperty>, v: Value, strict: bool)
    returns (err: Option<ErrorKind>)
    modifies m
    ensures G.Outcome(err, m.Snapshot()) == D.ObjectDestructuringAssignment(props, v, strict, old(m.Snapshot()))
    decreases props
  {
    ghost var st0 := m.Snapshot();
    var i := 0;
    while i < |props|
      invariant 0 <= i <= |props|
      invariant D.ObjectDestructuringAssignment(props[i..], v, strict, m.Snapshot()) ==
                D.ObjectDestructuringAssignment(props, v, strict, st0)
    {
      ghost var st := m.Snapshot();
      err := KeyedDestructuringAssignmentEvaluation(m, props[i], v, strict);
      ObjectDestructuringTurn(props, i, v, strict, st);
      if err.Some? {
        return;
      }
      i := i + 1;
    }
    assert props[i..] == [];
    err := None;
  }

  /** The property loop's turn: the property at `i`, then the properties after it. */
  lemma ObjectDestructuringTurn(props: seq<D.AssignmentProperty>, i: nat, v: Value, strict: bool, st: State)
    requires i < |props|
    ensures var r := D.KeyedDestructuringAssignmentEvaluation(props[i], v, strict, st);
            r.Err? ==> D.ObjectDestructuringAssignment(props[i..], v, strict, st) == r
    ensures var r := D.KeyedDestructuringAssignmentEvaluation(props[i], v, strict, st);
            r.Ok? ==> D.ObjectDestructuringAssignment(props[i + 1..], v, strict, r.value) ==
                      D.ObjectDestructuringAssignment(props[i..], v, strict, st)
  {
    assert props[i..][0] == props[i] && props[i..][1..] == props[i + 1..];
  }

  method KeyedDestructuringAssignmentEvaluation(m: Machine, p: D.AssignmentProperty, v: Value, strict: bool)
    returns (err: Option<ErrorKind>)
    modifies m
    ensures G.Outcome(err, m.Snapshot()) ==
            D.KeyedDestructuringAssignmentEvaluation(p, v, strict, old(m.Snapshot()))
    decreases p
  {
    match p
    case ShorthandProperty(name, init) =>
      var pv := m.ReadProperty(v, name);
      if pv.Err? {
        return Some(pv.error);
      }
      var w := m.ApplyInitializer(pv.value, init, None);
      m.ResolveReference(name);
      err := m.Store(name, w, strict);
    case KeyedProperty(pn, target, init) =>
      var key := m.EvaluateKey(pn);
      var pv := m.ReadProperty(v, key);
      if pv.Err? {
        return Some(pv.error);
      }
      var w := m.ApplyInitializer(pv.value, init, None);
      match target {
        case Reference(name) =>
          m.ResolveReference(name);
          err := m.Store(name, w, strict);
        case Pattern(pattern) =>
          err := DestructuringAssignmentEvaluation(m, pattern, w, strict);
      }
  }

  /**
   * `pattern = rhs`: the right-hand side is evaluated and destructured, and is the
   * completion value when the expression has one.
   */
  method DestructuringAssignment(m: Machine, p: D.AssignmentPattern, rhs: Expr, hasCompletion: bool, strict: bool)
    returns (r: Result<Option<Value>, ErrorKind>)
    modifies m
    ensures var spec := D.DestructuringAssignmentExpression(p, rhs, hasCompletion, strict, old(m.Snapshot()));
            (r.Err? <==> spec.Err?) &&
            (r.Err? ==> r.error == spec.error) &&
            (r.Ok? ==> (r.value, m.Snapshot()) == spec.value)
  {
    var rv := m.EvaluateExpr(rhs);
    var err := DestructuringAssignmentEvaluation(m, p, rv, strict);
    if err.Some? {
      return Err(err.value);
    }
    r := Ok(if hasCompletion then Some(rv) else None);
  }
}
