// The function-expression AST node: how its name and this-mode are resolved,
// and the setters the compiler uses to rewrite it after parsing.

module FunctionExpressionNode {
  import opened Wrappers

  /** Strictness recorded on a function node; `None` in a field means "not yet set". */
  datatype StrictMode = Unknown | ImplicitStrict | ExplicitStrict | NonStrict

  /** How `this` is bound when the function is called. */
  datatype ThisMode = Lexical | Strict | Global

  /** The resolved name: an explicit function name wins, then the binding identifier, else "". */
  function ResolveName(functionName: Option<string>, identifier: Option<string>): (r: string)
    ensures functionName.Some? ==> r == functionName.value
    ensures functionName.None? && identifier.Some? ==> r == identifier.value
    ensures functionName.None? && identifier.None? ==> r == ""
  {
    if functionName.Some? then functionName.value
    else if identifier.Some? then identifier.value
    else ""
  }

  /** The this-mode of a (non-arrow) function expression: never lexical. */
  function ThisModeOf(strictMode: Option<StrictMode>): (r: ThisMode)
    ensures r == Global <==> strictMode == Some(NonStrict)
    ensures r != Lexical
  {
    if strictMode == Some(NonStrict) then Global else Strict
  }

  /**
   * A function expression over statements of type `S`. The binding identifier is
   * immutable; the name, strictness, body and synthetic-node flag may be replaced.
   */
  class FunctionExpression<S> {
    const identifier: Option<string>
    const superReference: bool
    var functionName: Option<string>
    var statements: seq<S>
    var strictMode: Option<StrictMode>
    var syntheticNodes: bool

    /** The constructor taking a binding identifier; no explicit name is recorded. */
    constructor WithIdentifier(id: Option<string>, body: seq<S>, superRef: bool)
      ensures identifier == id && functionName.None?
      ensures statements == body && superReference == superRef
      ensures strictMode.None? && !syntheticNodes
      ensures GetFunctionName() == (if id.Some? then id.value else "")
    {
      identifier := id;
      superReference := superRef;
      functionName := None;
      statements := body;
      strictMode := None;
      syntheticNodes := false;
    }

    /** The constructor taking a name string leaves the identifier unset. */
    constructor WithName(name: string, body: seq<S>, superRef: bool)
      ensures identifier.None? && functionName == Some(name)
      ensures statements == body && superReference == superRef
      ensures strictMode.None? && !syntheticNodes
      ensures GetFunctionName() == name
    {
      identifier := None;
      superReference := superRef;
      functionName := Some(name);
      statements := body;
      strictMode := None;
      syntheticNodes := false;
    }

    function GetFunctionName(): string
      reads this
    {
      ResolveName(functionName, identifier)
    }

    /** `getMethodName` delegates to `getFunctionName`. */
    function GetMethodName(): (r: string)
      reads this
      ensures r == ResolveName(functionName, identifier)
    {
      GetFunctionName()
    }

    function GetThisMode(): ThisMode
      reads this
    {
      ThisModeOf(strictMode)
    }

    /** A function expression is neither a generator nor an async function. */
    function IsGenerator(): (b: bool)
      ensures !b
    {
      false
    }

    function IsAsync(): (b: bool)
      ensures !b
    {
      false
    }

    method SetFunctionName(name: string)
      modifies this
      ensures functionName == Some(name) && GetFunctionName() == name
      ensures statements == old(statements) && strictMode == old(strictMode)
      ensures syntheticNodes == old(syntheticNodes)
    {
      functionName := Some(name);
    }

    method SetStatements(body: seq<S>)
      modifies this
      ensures statements == body
      ensures functionName == old(functionName) && strictMode == old(strictMode)
      ensures syntheticNodes == old(syntheticNodes)
      ensures GetFunctionName() == old(GetFunctionName())
    {
      statements := body;
    }

    method SetStrictMode(mode: StrictMode)
      modifies this
      ensures strictMode == Some(mode)
      ensures GetThisMode() == (if mode == NonStrict then Global else Strict)
      ensures functionName == old(functionName) && statements == old(statements)
      ensures syntheticNodes == old(syntheticNodes)
    {
      strictMode := Some(mode);
    }

    method SetSyntheticNodes(b: bool)
      modifies this
      ensures syntheticNodes == b
      ensures functionName == old(functionName) && statements == old(statements)
      ensures strictMode == old(strictMode)
    {
      syntheticNodes := b;
    }
  }
}
