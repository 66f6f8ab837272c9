// The code emitted for binding patterns, run on the machine: each method performs the
// steps the generated code performs, in place, and is proved to have the meaning given
// by the functions of the same name in `Bindings`.

module BindingInitializationGenerator {
  import opened Wrappers
  import opened Values
  import opened Runtime
  import S = Bindings

  /** A method's error result and the machine state it leaves, as a spec result. */
  function Outcome(err: Option<ErrorKind>, st: State): (r: Result<State, ErrorKind>)
    ensures r.Ok? <==> err.None?
    ensures r.Ok? ==> r.value == st
    ensures r.Err? ==> r.error == err.value
  {
    if err.None? then Ok(st) else Err(err.value)
  }

  method InitializeBoundName(m: Machine, name: string, v: Value, ctx: S.Context) returns (err: Option<ErrorKind>)
    modifies m
    ensures Outcome(err, m.Snapshot()) == S.InitializeBoundName(name, v, ctx, old(m.Snapshot()))
  {
    if ctx.environment == S.NoEnvironment {
      m.ResolveReference(name);
      err := m.Store(name, v, ctx.strict);
    } else {
      m.Initialize(name, v);
      err := None;
    }
  }

  method BindingInitialization(m: Machine, b: S.Binding, v: Value, ctx: S.Context) returns (err: Option<ErrorKind>)
    modifies m
    ensures Outcome(err, m.Snapshot()) == S.BindingInitialization(b, v, ctx, old(m.Snapshot()))
    decreases b
  {
    match b
    case BindingIdentifier(name) =>
      err := InitializeBoundName(m, name, v, ctx);
    case ArrayBindingPattern(elements) =>
      var it := m.OpenIterator(v);
      if it.Err? {
        return Some(it.error);
      }
      err := IteratorBindingInitialization(m, elements, it.value, ctx);
    case ObjectBindingPattern(properties) =>
      err := ObjectBindingInitialization(m, properties, v, ctx);
  }

  /** The element loop: every element runs against the same iterator. */
  method IteratorBindingInitialization(m: Machine, items: seq<S.BindingElementItem>, id: nat, ctx: S.Context)
    returns (err: Option<ErrorKind>)
    requires id < |m.iterators|
    modifies m
    ensures Outcome(err, m.Snapshot()) == S.IteratorBindingInitialization(items, id, ctx, old(m.Snapshot()))
    decreases items
  {
    ghost var st0 := m.Snapshot();
    var i := 0;
    while i < |items|
      invariant 0 <= i <= |items|
      invariant id < |m.iterators|
      invariant S.IteratorBindingInitialization(items[i..], id, ctx, m.Snapshot()) ==
                S.IteratorBindingInitialization(items, id, ctx, st0)
    {
      IteratorBindingStep(items, i, id, ctx, m.Snapshot());
      err := IteratorBindingElement(m, items[i], id, ctx);
      if err.Some? {
        return;
      }
      i := i + 1;
    }
    err := None;
  }

  /** The element loop's turn: the element at `i`, then the elements after it. */
  lemma IteratorBindingStep(items: seq<S.BindingElementItem>, i: nat, id: nat, ctx: S.Context, st: State)
    requires i < |items| && id < |st.iterators|
    ensures S.IteratorBindingInitialization(items[i..], id, ctx, st) ==
            match S.IteratorBindingElement(items[i], id, ctx, st)
            case Err(e) => Err(e)
            case Ok(st1) => S.IteratorBindingInitialization(items[i + 1..], id, ctx, st1)
  {
    assert items[i..][0] == items[i] && items[i..][1..] == items[i + 1..];
  }

  /** The property loop's turn: the property at `i`, then the properties after it. */
  lemma ObjectBindingStep(props: seq<S.BindingProperty>, i: nat, v: Value, ctx: S.Context, st: State)
    requires i < |props|
    ensures var r := S.KeyedBindingInitialization(props[i], v, ctx, st);
            r.Err? ==> S.ObjectBindingInitialization(props[i..], v, ctx, st) == r
    ensures var r := S.KeyedBindingInitialization(props[i], v, ctx, st);
            r.Ok? ==> S.ObjectBindingInitialization(props[i + 1..], v, ctx, r.value) ==
                      S.ObjectBindingInitialization(props[i..], v, ctx, st)
  {
    assert props[i..][0] == props[i] && props[i..][1..] == props[i + 1..];
  }

  method IteratorBindingElement(m: Machine, item: S.BindingElementItem, id: nat, ctx: S.Context)
    returns (err: Option<ErrorKind>)
    requires id < |m.iterators|
    modifies m
    ensures Outcome(err, m.Snapshot()) == S.IteratorBindingElement(item, id, ctx, old(m.Snapshot()))
    decreases item
  {
    match item
    case BindingElision =>
      var _ := m.IteratorNextOrUndefined(id);
      err := None;
    case BindingElement(binding, init) =>
      var v := m.IteratorNextOrUndefined(id);
      var w := m.ApplyInitializer(v, init, S.NameOf(binding));
      err := BindingInitialization(m, binding, w, ctx);
    case BindingRestElement(name) =>
      var arr := m.CollectRest(id);
      err := InitializeBoundName(m, name, arr, ctx);
  }

  /** The property loop: every property reads from the same value. */
  method ObjectBindingInitialization(m: Machine, props: seq<S.BindingProperty>, v: Value, ctx: S.Context)
    returns (err: Option<ErrorKind>)
    modifies m
    ensures Outcome(err, m.Snapshot()) == S.ObjectBindingInitialization(props, v, ctx, old(m.Snapshot()))
    decreases props
  {
    ghost var st0 := m.Snapshot();
    var i := 0;
    while i < |props|
      invariant 0 <= i <= |props|
      invariant S.ObjectBindingInitialization(props[i..], v, ctx, m.Snapshot()) ==
                S.ObjectBindingInitialization(props, v, ctx, st0)
    {
      ghost var st := m.Snapshot();
      err := KeyedBindingInitialization(m, props[i], v, ctx);
      ObjectBindingStep(props, i, v, ctx, st);
      if err.Some? {
        return;
      }
      i := i + 1;
    }
    assert props[i..] == [];
    err := None;
  }

  method KeyedBindingInitialization(m: Machine, p: S.BindingProperty, v: Value, ctx: S.Context)
    returns (err: Option<ErrorKind>)
    modifies m
    ensures Outcome(err, m.Snapshot()) == S.KeyedBindingInitialization(p, v, ctx, old(m.Snapshot()))
    decreases p
  {
    match p
    case SingleNameBinding(name, init) =>
      var pv := m.ReadProperty(v, name);
      if pv.Err? {
        return Some(pv.error);
      }
      var w := m.ApplyInitializer(pv.value, init, Some(name));
      err := InitializeBoundName(m, name, w, ctx);
    case KeyedBinding(pn, target, init) =>
      var key := m.EvaluateKey(pn);
      var pv := m.ReadProperty(v, key);
      if pv.Err? {
        return Some(pv.error);
      }
      var w := m.ApplyInitializer(pv.value, init, S.NameOf(target));
      err := BindingInitialization(m, target, w, ctx);
  }

  /**
   * Formal parameters: the elements bound against the arguments iterator, into the
   * record held in a local when one is supplied, through references otherwise.
   */
  method FunctionParameterBinding(m: Machine, params: seq<S.BindingElementItem>, id: nat,
                                  withRecord: bool, strict: bool)
    returns (err: Option<ErrorKind>)
    requires id < |m.iterators|
    modifies m
    ensures Outcome(err, m.Snapshot()) ==
            S.IteratorBindingInitialization(params, id, S.Context(S.ParameterEnvironment(withRecord), strict),
                                            old(m.Snapshot()))
  {
    var environment := S.ParameterEnvironment(withRecord);
    err := IteratorBindingInitialization(m, params, id, S.Context(environment, strict));
  }
}
