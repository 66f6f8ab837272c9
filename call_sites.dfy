// Call-site classification: how a call is dispatched depends on the shape of its
// callee and, for identifiers, on whether a `with` statement may intercept the name.

module CallSites {
  import opened Expressions

  /** Only `with` scopes matter to the walk; every other scope just declares names. */
  datatype ScopeKind = WithScope | DeclarativeScope

  datatype Scope = Scope(kind: ScopeKind, declared: set<string>)

  /**
   * The decision of the scope walk for a name, scopes listed innermost first: the
   * first `with` scope or declaring scope decides; with neither, the compile option
   * that says the code is enclosed by a `with` statement decides.
   */
  function EnclosedByWith(scopes: seq<Scope>, name: string, withOption: bool): bool
    decreases |scopes|
  {
    if |scopes| == 0 then withOption
    else if scopes[0].kind == WithScope then true
    else if name in scopes[0].declared then false
    else EnclosedByWith(scopes[1..], name, withOption)
  }

  /** Scope `i` is a `with` scope and no scope inside it declares the name. */
  predicate WithReachable(scopes: seq<Scope>, name: string, i: int)
  {
    0 <= i < |scopes| && scopes[i].kind == WithScope &&
    forall j :: 0 <= j < i ==> name !in scopes[j].declared
  }

  /** No scope on the chain is a `with` scope or declares the name. */
  predicate NoRelevantScope(scopes: seq<Scope>, name: string)
  {
    forall j :: 0 <= j < |scopes| ==> scopes[j].kind != WithScope && name !in scopes[j].declared
  }

  /**
   * The walk answers true exactly when some `with` scope is reached before any scope
   * declaring the name, or when no scope is relevant and the option is set.
   */
  lemma {:induction false} EnclosedByWithCharacterized(scopes: seq<Scope>, name: string, withOption: bool)
    ensures EnclosedByWith(scopes, name, withOption) <==>
            (exists i :: WithReachable(scopes, name, i)) ||
            (NoRelevantScope(scopes, name) && withOption)
    decreases |scopes|
  {
    if |scopes| == 0 {
      assert !exists i :: WithReachable(scopes, name, i);
    } else if scopes[0].kind == WithScope {
      assert WithReachable(scopes, name, 0);
    } else if name in scopes[0].declared {
      assert !NoRelevantScope(scopes, name);
      forall i | 0 <= i < |scopes|
        ensures !WithReachable(scopes, name, i)
      {
        if i > 0 {
          assert name in scopes[0].declared;
        }
      }
    } else {
      var rest := scopes[1..];
      EnclosedByWithCharacterized(rest, name, withOption);
      if exists i :: WithReachable(rest, name, i) {
        var i :| WithReachable(rest, name, i);
        assert WithReachable(scopes, name, i + 1);
      }
      if exists i :: WithReachable(scopes, name, i) {
        var i :| WithReachable(scopes, name, i);
        assert i > 0;
        assert WithReachable(rest, name, i - 1);
      }
      if NoRelevantScope(rest, name) {
        assert NoRelevantScope(scopes, name);
      }
      if NoRelevantScope(scopes, name) {
        assert NoRelevantScope(rest, name);
      }
    }
  }

  /** The scope walk for a name, as a cursor loop with early return. */
  method IsEnclosedByWithStatement(name: string, scopes: seq<Scope>, withOption: bool)
    returns (r: bool)
    ensures r == EnclosedByWith(scopes, name, withOption)
  {
    var i := 0;
    while i < |scopes|
      invariant 0 <= i <= |scopes|
      invariant EnclosedByWith(scopes[i..], name, withOption) == EnclosedByWith(scopes, name, withOption)
    {
      assert scopes[i..][1..] == scopes[i + 1..];
      if scopes[i].kind == WithScope {
        return true;
      }
      if name in scopes[i].declared {
        return false;
      }
      i := i + 1;
    }
    return withOption;
  }

  /** The nameless walk: any `with` scope on the chain, or else the option. */
  method IsEnclosedByAnyWithStatement(scopes: seq<Scope>, withOption: bool) returns (r: bool)
    ensures r <==> (exists i :: 0 <= i < |scopes| && scopes[i].kind == WithScope) || withOption
  {
    var i := 0;
    while i < |scopes|
      invariant 0 <= i <= |scopes|
      invariant forall j :: 0 <= j < i ==> scopes[j].kind != WithScope
    {
      if scopes[i].kind == WithScope {
        return true;
      }
      i := i + 1;
    }
    return withOption;
  }

  /** How a call is dispatched. */
  datatype CallType = Identifier | IdentifierWith | Eval | EvalWith | Property | Value

  predicate IsAccessor(e: Expression)
  {
    e.ElementAccessor? || e.PropertyAccessor? || e.SuperElementAccessor? || e.SuperPropertyAccessor?
  }

  /**
   * The call type of a call node with callee `base`. An identifier callee is an
   * `Eval` candidate only in a plain call expression naming `eval`; either identifier
   * kind has a `...With` variant when a `with` scope may capture the name.
   */
  function CallTypeOf(call: Expression, base: Expression, scopes: seq<Scope>, withOption: bool)
    : (ct: CallType)
    ensures (ct == Eval || ct == EvalWith) <==>
            base == IdentifierReference("eval") && call.CallExpression?
    ensures (ct == IdentifierWith || ct == EvalWith) <==>
            base.IdentifierReference? && EnclosedByWith(scopes, base.name, withOption)
    ensures (ct == Identifier || ct == IdentifierWith || ct == Eval || ct == EvalWith) <==>
            base.IdentifierReference?
    ensures ct == Property <==> IsAccessor(base)
    ensures ct == Value <==> !base.IdentifierReference? && !IsAccessor(base)
  {
    if base.IdentifierReference? then
      var directEval := call.CallExpression? && base.name == "eval";
      if EnclosedByWith(scopes, base.name, withOption) then
        (if directEval then EvalWith else IdentifierWith)
      else
        (if directEval then Eval else Identifier)
    else if base.ElementAccessor? || base.PropertyAccessor? then Property
    else if base.SuperElementAccessor? || base.SuperPropertyAccessor? then Property
    else Value
  }
}
