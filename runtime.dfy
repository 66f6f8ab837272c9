// The run-time operations that the code emitted for destructuring calls: obtaining an
// iterator, stepping it, collecting the rest of it into an array, reading a property,
// resolving and storing through references, and naming anonymous functions. Every
// operation records an observable event, so that evaluation order can be stated.

module Runtime {
  import opened Wrappers
  import opened Values

  /** A heap object: its own properties and, for arrays, its elements. */
  datatype ObjectData = ObjectData(properties: map<string, Value>, elements: Option<seq<Value>>)

  /** An iterator over a fixed list of values with a cursor. */
  datatype Cursor = Cursor(values: seq<Value>, pos: nat)

  /** What the outside world can observe, in the order it happens. */
  datatype Event =
    | Evaluated(tag: nat)                 // an initializer or computed key with observable evaluation
    | IteratorOpened(newIterator: nat)
    | IteratorNext(stepped: nat)          // one call of the iterator's `next`
    | RestCollected(source: nat, array: nat)
    | PropertyRead(base: Value, key: string)
    | ReferenceEvaluated(name: string)
    | Stored(target: string, stored: Value)
    | Initialized(binding: string, initial: Value)
    | FunctionNamed(fn: nat, fnName: string)

  /**
   * The expressions that appear as initializers and computed keys: a literal, an
   * expression whose evaluation is observable, or an anonymous function definition,
   * which allocates a new function object.
   */
  datatype Expr = Lit(v: Value) | Effect(tag: nat, result: Value) | AnonymousFunction(fnTag: nat)

  /**
   * The observable state: the event trace, the variables reachable through references,
   * the environment record being initialized, the heap and the open iterators.
   */
  datatype State = State(
    trace: seq<Event>,
    store: map<string, Value>,
    record: map<string, Value>,
    heap: seq<ObjectData>,
    iterators: seq<Cursor>)

  /**
   * `b` is reachable from `a` by evaluation that may step iterator `id` (or none, for a
   * negative `id`): events are only appended, objects and iterators only added, and
   * every other pre-existing iterator is left alone.
   */
  predicate Extends(a: State, b: State, id: int)
  {
    a.trace <= b.trace && |a.heap| <= |b.heap| && |a.iterators| <= |b.iterators| &&
    (forall j :: 0 <= j < |a.iterators| && j != id ==> b.iterators[j] == a.iterators[j]) &&
    (0 <= id < |a.iterators| ==>
       b.iterators[id].values == a.iterators[id].values && a.iterators[id].pos <= b.iterators[id].pos)
  }

  lemma ExtendsTrans(a: State, b: State, c: State, id: int)
    requires Extends(a, b, id) && Extends(b, c, id)
    ensures Extends(a, c, id)
  {
  }

  lemma ExtendsWiden(a: State, b: State, id: int)
    requires Extends(a, b, -1) && id >= 0
    ensures Extends(a, b, id)
  {
  }

  // ---------------------------------------------------------------------------
  // Expressions
  // ---------------------------------------------------------------------------

  /** Evaluation of an initializer: only observable expressions leave an event. */
  function Evaluate(e: Expr, st: State): (r: (Value, State))
    ensures Extends(st, r.1, -1)
    ensures r.1.store == st.store && r.1.record == st.record && r.1.iterators == st.iterators
    ensures e.Lit? ==> r == (e.v, st)
    ensures e.Effect? ==> r == (e.result, st.(trace := st.trace + [Evaluated(e.tag)]))
    ensures e.AnonymousFunction? ==>
              r.0 == Object(|st.heap|) && |r.1.heap| == |st.heap| + 1 && r.1.heap[..|st.heap|] == st.heap &&
              r.1.trace == st.trace + [Evaluated(e.fnTag)]
  {
    match e
    case Lit(v) => (v, st)
    case Effect(tag, v) => (v, st.(trace := st.trace + [Evaluated(tag)]))
    case AnonymousFunction(tag) =>
      (Object(|st.heap|),
       st.(trace := st.trace + [Evaluated(tag)], heap := st.heap + [ObjectData(map[], None)]))
  }

  // ---------------------------------------------------------------------------
  // Iteration
  // ---------------------------------------------------------------------------

  /** The values iterating over `v` yields, if it is iterable: arrays and strings. */
  function IterationValues(v: Value, heap: seq<ObjectData>): Option<seq<Value>>
  {
    match v
    case Object(a) => if a < |heap| && heap[a].elements.Some? then heap[a].elements else None
    case String(s) => Some(seq(|s|, i requires 0 <= i < |s| => String([s[i]])))
    case _ => None
  }

  /** GetIterator: a new iterator at the next free id, or a TypeError for a non-iterable. */
  function GetIterator(v: Value, st: State): (r: Result<(nat, State), ErrorKind>)
    ensures r.Ok? <==> IterationValues(v, st.heap).Some?
    ensures r.Ok? ==>
              var (id, st') := r.value;
              id == |st.iterators| && Extends(st, st', -1) &&
              st'.iterators == st.iterators + [Cursor(IterationValues(v, st.heap).value, 0)] &&
              st'.trace == st.trace + [IteratorOpened(id)] &&
              st' == st.(trace := st'.trace, iterators := st'.iterators)
    ensures r.Err? ==> r.error == TypeError
  {
    match IterationValues(v, st.heap)
    case None => Err(TypeError)
    case Some(vals) =>
      var id := |st.iterators|;
      Ok((id, st.(trace := st.trace + [IteratorOpened(id)], iterators := st.iterators + [Cursor(vals, 0)])))
  }

  /** The value the next step of a cursor yields: undefined once it is exhausted. */
  function Pulled(c: Cursor): Value
  {
    if c.pos < |c.values| then c.values[c.pos] else Undefined
  }

  /** The cursor after one step: advanced by one, but never past the end. */
  function Advanced(c: Cursor): (d: Cursor)
    ensures d.values == c.values
    ensures d.pos == if c.pos < |c.values| then c.pos + 1 else c.pos
  {
    if c.pos < |c.values| then c.(pos := c.pos + 1) else c
  }

  /** IteratorNextOrUndefined: one call of `next`, yielding undefined once exhausted. */
  function Next(st: State, id: nat): (r: (Value, State))
    requires id < |st.iterators|
    ensures Extends(st, r.1, id)
    ensures r.0 == Pulled(st.iterators[id])
    ensures r.1 == st.(trace := st.trace + [IteratorNext(id)],
                       iterators := st.iterators[id := Advanced(st.iterators[id])])
  {
    var c := st.iterators[id];
    (Pulled(c), st.(trace := st.trace + [IteratorNext(id)], iterators := st.iterators[id := Advanced(c)]))
  }

  /** The values a cursor has not yet yielded. */
  function Remaining(c: Cursor): seq<Value>
  {
    if c.pos < |c.values| then c.values[c.pos..] else []
  }

  /** The cursor once every remaining value has been taken. */
  function Drained(c: Cursor): (d: Cursor)
    ensures d.values == c.values && c.pos <= d.pos && Remaining(d) == []
  {
    if c.pos < |c.values| then c.(pos := |c.values|) else c
  }

  /**
   * createRestArray: drains the iterator into a fresh array object, which is the result.
   */
  function CreateRestArray(st: State, id: nat): (r: (Value, State))
    requires id < |st.iterators|
    ensures Extends(st, r.1, id)
    ensures r.0 == Object(|st.heap|)
    ensures r.1.heap == st.heap + [ObjectData(map[], Some(Remaining(st.iterators[id])))]
    ensures r.1.iterators == st.iterators[id := Drained(st.iterators[id])]
    ensures r.1.trace == st.trace + [RestCollected(id, |st.heap|)]
    ensures r.1.store == st.store && r.1.record == st.record
  {
    var c := st.iterators[id];
    var addr := |st.heap|;
    (Object(addr),
     st.(trace := st.trace + [RestCollected(id, addr)],
         heap := st.heap + [ObjectData(map[], Some(Remaining(c)))],
         iterators := st.iterators[id := Drained(c)]))
  }

  // ---------------------------------------------------------------------------
  // Properties and keys
  // ---------------------------------------------------------------------------

  function DigitChar(d: nat): char
    requires d < 10
  {
    "0123456789"[d]
  }

  /** The decimal digits of a natural number, most significant first. */
  function NatToString(n: nat): (s: string)
    ensures 1 <= |s|
    ensures forall i :: 0 <= i < |s| ==> '0' <= s[i] <= '9'
    ensures n < 10 <==> |s| == 1
  {
    if n < 10 then [DigitChar(n)] else NatToString(n / 10) + [DigitChar(n % 10)]
  }

  /**
   * ToPropertyKey on the values of the model. Objects convert by the ordinary
   * `toString` of a plain object.
   */
  function ToPropertyKey(v: Value): (key: string)
    ensures v.String? ==> key == v.s
    ensures v.Number? && v.n >= 0 ==> key == NatToString(v.n)
  {
    match v
    case Undefined => "undefined"
    case Null => "null"
    case Bool(b) => if b then "true" else "false"
    case Number(n) => if n < 0 then "-" + NatToString(-n) else NatToString(n)
    case String(s) => s
    case Object(_) => "[object Object]"
  }

  /**
   * GetV: reading a property of the value. Undefined and null cannot be converted to an
   * object and throw a TypeError before anything is read; a missing property reads as
   * undefined.
   */
  function GetV(base: Value, key: string, st: State): (r: Result<(Value, State), ErrorKind>)
    ensures r.Err? <==> base == Undefined || base == Null
    ensures r.Err? ==> r.error == TypeError
    ensures r.Ok? ==> r.value.1 == st.(trace := st.trace + [PropertyRead(base, key)])
    ensures r.Ok? && base.Object? && base.addr < |st.heap| && key in st.heap[base.addr].properties ==>
              r.value.0 == st.heap[base.addr].properties[key]
  {
    if base == Undefined || base == Null then Err(TypeError)
    else
      var v := if base.Object? && base.addr < |st.heap| && key in st.heap[base.addr].properties
               then st.heap[base.addr].properties[key] else Undefined;
      Ok((v, st.(trace := st.trace + [PropertyRead(base, key)])))
  }

  /** SetFunctionName: gives a freshly created function object its `name` property. */
  function SetFunctionName(f: Value, name: string, st: State): (st': State)
    ensures Extends(st, st', -1)
    ensures st'.store == st.store && st'.record == st.record && st'.iterators == st.iterators
    ensures |st'.heap| == |st.heap|
    ensures f.Object? && f.addr < |st.heap| ==>
              st'.heap[f.addr].properties == st.heap[f.addr].properties["name" := String(name)] &&
              st'.trace == st.trace + [FunctionNamed(f.addr, name)]
  {
    if f.Object? && f.addr < |st.heap| then
      var o := st.heap[f.addr];
      st.(trace := st.trace + [FunctionNamed(f.addr, name)],
          heap := st.heap[f.addr := o.(properties := o.properties["name" := String(name)])])
    else st
  }

  /** The events of a trace that name a function. */
  predicate NamesNoFunction(events: seq<Event>)
  {
    forall i :: 0 <= i < |events| ==> !events[i].FunctionNamed?
  }

  /**
   * The default of a binding element: the initializer is evaluated only when the value
   * is undefined; an anonymous function so obtained is named after `naming`, the bound
   * identifier, when there is one.
   */
  function ApplyDefault(v: Value, init: Option<Expr>, naming: Option<string>, st: State)
    : (r: (Value, State))
    ensures Extends(st, r.1, -1)
    ensures r.1.store == st.store && r.1.record == st.record && r.1.iterators == st.iterators
    ensures v != Undefined || init.None? ==> r == (v, st)
    ensures v == Undefined && init.Some? ==> r.0 == Evaluate(init.value, st).0
    ensures naming.None? ==> NamesNoFunction(r.1.trace[|st.trace|..])
    ensures v == Undefined && init.Some? && init.value.AnonymousFunction? && naming.Some? ==>
              r.0 == Object(|st.heap|) && |r.1.heap| == |st.heap| + 1 &&
              r.1.heap[|st.heap|].properties == map["name" := String(naming.value)]
  {
    if v == Undefined && init.Some? then
      var (w, st1) := Evaluate(init.value, st);
      if naming.Some? && init.value.AnonymousFunction? then
        (w, SetFunctionName(w, naming.value, st1))
      else (w, st1)
    else (v, st)
  }

  /** A property name in a pattern: a literal name, or a computed `[expression]`. */
  datatype PropertyName = LiteralName(literal: string) | ComputedName(expr: Expr)

  /**
   * The key a property name denotes: a literal is its own key; a computed name is
   * evaluated and converted with ToPropertyKey.
   */
  function EvaluatePropertyName(pn: PropertyName, st: State): (r: (string, State))
    ensures Extends(st, r.1, -1)
    ensures r.1.store == st.store && r.1.record == st.record && r.1.iterators == st.iterators
    ensures pn.LiteralName? ==> r == (pn.literal, st)
    ensures pn.ComputedName? ==> r.0 == ToPropertyKey(Evaluate(pn.expr, st).0)
  {
    match pn
    case LiteralName(n) => (n, st)
    case ComputedName(e) =>
      var (kv, st1) := Evaluate(e, st);
      (ToPropertyKey(kv), st1)
  }

  // ---------------------------------------------------------------------------
  // References
  // ---------------------------------------------------------------------------

  /** Evaluating an identifier reference (ResolveBinding) is an observable step. */
  function ResolveBinding(name: string, st: State): (st': State)
    ensures Extends(st, st', -1)
    ensures st' == st.(trace := st.trace + [ReferenceEvaluated(name)])
  {
    st.(trace := st.trace + [ReferenceEvaluated(name)])
  }

  /**
   * PutValue through an identifier reference: an unresolvable reference throws a
   * ReferenceError in strict code and creates the variable otherwise.
   */
  function PutValue(name: string, v: Value, strict: bool, st: State): (r: Result<State, ErrorKind>)
    ensures r.Err? <==> strict && name !in st.store
    ensures r.Err? ==> r.error == ReferenceError
    ensures r.Ok? ==> r.value == st.(trace := st.trace + [Stored(name, v)], store := st.store[name := v])
  {
    if strict && name !in st.store then Err(ReferenceError)
    else Ok(st.(trace := st.trace + [Stored(name, v)], store := st.store[name := v]))
  }

  /** InitializeBinding on the environment record being filled. */
  function InitializeBinding(name: string, v: Value, st: State): (st': State)
    ensures Extends(st, st', -1)
    ensures st' == st.(trace := st.trace + [Initialized(name, v)], record := st.record[name := v])
  {
    st.(trace := st.trace + [Initialized(name, v)], record := st.record[name := v])
  }

  // ---------------------------------------------------------------------------
  // The machine the emitted code runs on
  // ---------------------------------------------------------------------------

  /**
   * The mutable run-time state. Each method performs one run-time operation in place
   * and is specified by the function of the same meaning above.
   */
  class Machine {
    var trace: seq<Event>
    var store: map<string, Value>
    var record: map<string, Value>
    var heap: seq<ObjectData>
    var iterators: seq<Cursor>

    function Snapshot(): State
      reads this
    {
      State(trace, store, record, heap, iterators)
    }

    constructor (st: State)
      ensures Snapshot() == st
    {
      trace := st.trace;
      store := st.store;
      record := st.record;
      heap := st.heap;
      iterators := st.iterators;
    }

    method EvaluateExpr(e: Expr) returns (v: Value)
      modifies this
      ensures (v, Snapshot()) == Evaluate(e, old(Snapshot()))
    {
      match e
      case Lit(w) =>
        v := w;
      case Effect(tag, w) =>
        trace := trace + [Evaluated(tag)];
        v := w;
      case AnonymousFunction(tag) =>
        trace := trace + [Evaluated(tag)];
        v := Object(|heap|);
        heap := heap + [ObjectData(map[], None)];
    }

    method OpenIterator(v: Value) returns (r: Result<nat, ErrorKind>)
      modifies this
      ensures GetIterator(v, old(Snapshot())).Err? ==> r == Err(GetIterator(v, old(Snapshot())).error)
      ensures GetIterator(v, old(Snapshot())).Ok? ==>
                r.Ok? && (r.value, Snapshot()) == GetIterator(v, old(Snapshot())).value
      ensures r.Err? ==> Snapshot() == old(Snapshot())
    {
      var vals := IterationValues(v, heap);
      if vals.None? {
        return Err(TypeError);
      }
      var id := |iterators|;
      trace := trace + [IteratorOpened(id)];
      iterators := iterators + [Cursor(vals.value, 0)];
      r := Ok(id);
    }

    method IteratorNextOrUndefined(id: nat) returns (v: Value)
      requires id < |iterators|
      modifies this
      ensures (v, Snapshot()) == Next(old(Snapshot()), id)
    {
      trace := trace + [IteratorNext(id)];
      var c := iterators[id];
      if c.pos < |c.values| {
        v := c.values[c.pos];
        iterators := iterators[id := c.(pos := c.pos + 1)];
      } else {
        v := Undefined;
        assert iterators[id := c] == iterators;
      }
    }

    method CollectRest(id: nat) returns (arr: Value)
      requires id < |iterators|
      modifies this
      ensures (arr, Snapshot()) == CreateRestArray(old(Snapshot()), id)
    {
      var c := iterators[id];
      var rest: seq<Value> := [];
      var p := c.pos;
      while p < |c.values|
        invariant c.pos <= p
        invariant c.pos < |c.values| ==> p <= |c.values| && rest == c.values[c.pos..p]
        invariant c.pos >= |c.values| ==> rest == [] && p == c.pos
      {
        rest := rest + [c.values[p]];
        p := p + 1;
      }
      assert rest == Remaining(c) && c.(pos := p) == Drained(c);
      arr := Object(|heap|);
      trace := trace + [RestCollected(id, |heap|)];
      heap := heap + [ObjectData(map[], Some(rest))];
      iterators := iterators[id := c.(pos := p)];
    }

    method ReadProperty(base: Value, key: string) returns (r: Result<Value, ErrorKind>)
      modifies this
      ensures GetV(base, key, old(Snapshot())).Err? ==> r == Err(GetV(base, key, old(Snapshot())).error)
      ensures GetV(base, key, old(Snapshot())).Ok? ==>
                r.Ok? && (r.value, Snapshot()) == GetV(base, key, old(Snapshot())).value
      ensures r.Err? ==> Snapshot() == old(Snapshot())
    {
      if base == Undefined || base == Null {
        return Err(TypeError);
      }
      var v := Undefined;
      if base.Object? && base.addr < |heap| && key in heap[base.addr].properties {
        v := heap[base.addr].properties[key];
      }
      trace := trace + [PropertyRead(base, key)];
      r := Ok(v);
    }

    method ApplyInitializer(v: Value, init: Option<Expr>, naming: Option<string>) returns (w: Value)
      modifies this
      ensures (w, Snapshot()) == ApplyDefault(v, init, naming, old(Snapshot()))
    {
      w := v;
      if v == Undefined && init.Some? {
        w := EvaluateExpr(init.value);
        if naming.Some? && init.value.AnonymousFunction? && w.Object? && w.addr < |heap| {
          var o := heap[w.addr];
          trace := trace + [FunctionNamed(w.addr, naming.value)];
          heap := heap[w.addr := o.(properties := o.properties["name" := String(naming.value)])];
        }
      }
    }

    method EvaluateKey(pn: PropertyName) returns (key: string)
      modifies this
      ensures (key, Snapshot()) == EvaluatePropertyName(pn, old(Snapshot()))
    {
      match pn
      case LiteralName(n) =>
        key := n;
      case ComputedName(e) =>
        var kv := EvaluateExpr(e);
        key := ToPropertyKey(kv);
    }

    method ResolveReference(name: string)
      modifies this
      ensures Snapshot() == ResolveBinding(name, old(Snapshot()))
    {
      trace := trace + [ReferenceEvaluated(name)];
    }

    method Store(name: string, v: Value, strict: bool) returns (err: Option<ErrorKind>)
      modifies this
      ensures PutValue(name, v, strict, old(Snapshot())).Err? ==>
                err == Some(PutValue(name, v, strict, old(Snapshot())).error)
      ensures PutValue(name, v, strict, old(Snapshot())).Ok? ==>
                err.None? && Snapshot() == PutValue(name, v, strict, old(Snapshot())).value
      ensures err.Some? ==> Snapshot() == old(Snapshot())
    {
      if strict && name !in store {
        return Some(ReferenceError);
      }
      trace := trace + [Stored(name, v)];
      store := store[name := v];
      err := None;
    }

    method Initialize(name: string, v: Value)
      modifies this
      ensures Snapshot() == InitializeBinding(name, v, old(Snapshot()))
    {
      trace := trace + [Initialized(name, v)];
      record := record[name := v];
    }
  }
}
