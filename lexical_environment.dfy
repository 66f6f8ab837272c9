// Lexical environments (section 8.1.2 of ECMA-262): immutable nodes linking an
// environment record to its outer environment, identifier resolution that walks
// the chain innermost first, and the factories for each kind of environment.

module LexicalEnvironments {
  import opened Wrappers
  import opened Values

  /** The kind of an environment record, with the data its constructor receives. */
  datatype RecordKind =
    | Declarative
    | ObjectRecord(bindingObject: nat, withEnvironment: bool)
    | FunctionRecord(thisValue: Option<Value>, homeObject: Option<nat>)
    | GlobalRecord(globalObject: nat)
    | Module

  /**
   * An environment record. The record implementations are collaborators outside this
   * model; a record is represented by its bindings, where `None` is a binding whose
   * value read yields no value (the source's `null`).
   */
  class EnvironmentRecord {
    const kind: RecordKind
    var bindings: map<string, Option<Value>>

    constructor (k: RecordKind, initial: map<string, Option<Value>>)
      ensures kind == k && bindings == initial
    {
      kind := k;
      bindings := initial;
    }

    /** `getReferenceOrNull`: a reference based on this record when it binds `name`. */
    function GetReferenceOrNull(name: string, strict: bool): (r: Option<Reference>)
      reads this
      ensures r.Some? <==> name in bindings
      ensures r.Some? ==> r.value.base == Some(this) && r.value.name == name
    {
      if name in bindings then Some(IdentifierReference(Some(this), name, strict)) else None
    }

    /** `getBindingValueOrNull`: the bound value, or nothing when unbound or unreadable. */
    function GetBindingValueOrNull(name: string, strict: bool): (v: Option<Value>)
      reads this
      ensures v.Some? ==> name in bindings && bindings[name] == v
      ensures name in bindings ==> v == bindings[name]
    {
      if name in bindings then bindings[name] else None
    }
  }

  /** An identifier reference; a missing base is an unresolvable reference. */
  datatype Reference = IdentifierReference(base: Option<EnvironmentRecord>, name: string, strict: bool)
  {
    predicate IsUnresolvable() { base.None? }
  }

  /**
   * A lexical environment: a record and an optional outer environment, both fixed
   * at construction. `outers` is the chain of enclosing environments, innermost first.
   */
  class LexicalEnvironment {
    const outer: LexicalEnvironment?
    const envRec: EnvironmentRecord
    ghost const outers: seq<LexicalEnvironment>
    ghost const Repr: set<EnvironmentRecord>

    /** The chain is finite and acyclic, and only a global record may end it. */
    ghost predicate Valid()
      decreases |outers|
    {
      (outer == null ==> outers == [] && Repr == {envRec} && envRec.kind.GlobalRecord?) &&
      (outer != null ==> outers == [outer] + outer.outers && Repr == {envRec} + outer.Repr && outer.Valid())
    }

    /** The records this environment consults, innermost first. */
    ghost function Chain(): (c: seq<EnvironmentRecord>)
      requires Valid()
      ensures |c| == |outers| + 1 && c[0] == envRec
      decreases |outers|
    {
      if outer == null then [envRec] else [envRec] + outer.Chain()
    }

    /** The constructor for the global environment, which has no outer environment. */
    constructor ForGlobal(rec: EnvironmentRecord)
      requires rec.kind.GlobalRecord?
      ensures outer == null && envRec == rec && Valid()
    {
      outer := null;
      envRec := rec;
      outers := [];
      Repr := {rec};
    }

    /** The constructor linking a record to an outer environment. */
    constructor Inner(e: LexicalEnvironment, rec: EnvironmentRecord)
      requires e.Valid()
      ensures outer == e && envRec == rec && Valid()
      ensures Chain() == [rec] + e.Chain()
    {
      outer := e;
      envRec := rec;
      outers := [e] + e.outers;
      Repr := {rec} + e.Repr;
    }

    /** The innermost record on the chain that binds `name`. */
    ghost function FindRecord(name: string): (r: Option<EnvironmentRecord>)
      requires Valid()
      reads Repr
      ensures r.Some? ==> r.value in Repr && name in r.value.bindings
      decreases |outers|
    {
      if name in envRec.bindings then Some(envRec)
      else if outer == null then None
      else outer.FindRecord(name)
    }

    /** The value of the innermost record that yields one for `name`. */
    ghost function FindValue(name: string): (v: Option<Value>)
      requires Valid()
      reads Repr
      decreases |outers|
    {
      if name in envRec.bindings && envRec.bindings[name].Some? then envRec.bindings[name]
      else if outer == null then None
      else outer.FindValue(name)
    }

    /** `FindRecord` finds nothing exactly when no record on the chain binds `name`. */
    lemma {:induction false} FindRecordNoneIffUnbound(name: string)
      requires Valid()
      ensures FindRecord(name).None? ==> forall i :: 0 <= i < |Chain()| ==> name !in Chain()[i].bindings
      ensures FindRecord(name).Some? ==> exists i :: 0 <= i < |Chain()| && name in Chain()[i].bindings
      decreases |outers|
    {
      var c := Chain();
      if name in envRec.bindings {
        assert name in c[0].bindings;
      } else if outer != null {
        outer.FindRecordNoneIffUnbound(name);
        assert c == [envRec] + outer.Chain();
        if FindRecord(name).None? {
          forall i | 0 <= i < |c| ensures name !in c[i].bindings {
            if i > 0 { assert c[i] == outer.Chain()[i - 1]; }
          }
        } else {
          var i :| 0 <= i < |outer.Chain()| && name in outer.Chain()[i].bindings;
          assert name in c[i + 1].bindings;
        }
      }
    }

    /** The record `FindRecord` picks is the first record on the chain that binds `name`. */
    lemma {:induction false} FindRecordIsInnermost(name: string)
      requires Valid()
      requires FindRecord(name).Some?
      ensures exists i :: 0 <= i < |Chain()| && Chain()[i] == FindRecord(name).value &&
                forall j :: 0 <= j < i ==> name !in Chain()[j].bindings
      decreases |outers|
    {
      var c := Chain();
      if name in envRec.bindings {
        assert c[0] == FindRecord(name).value;
      } else {
        outer.FindRecordIsInnermost(name);
        assert c == [envRec] + outer.Chain();
        var i :| 0 <= i < |outer.Chain()| && outer.Chain()[i] == FindRecord(name).value &&
                 forall j :: 0 <= j < i ==> name !in outer.Chain()[j].bindings;
        assert c[i + 1] == FindRecord(name).value;
        forall j | 0 <= j < i + 1 ensures name !in c[j].bindings {
          if j > 0 { assert c[j] == outer.Chain()[j - 1]; }
        }
      }
    }

    /**
     * When no record on the chain holds an unreadable binding for `name`, value lookup
     * reads exactly the record that reference resolution finds.
     */
    lemma {:induction false} FindValueReadsFoundRecord(name: string)
      requires Valid()
      requires forall i :: 0 <= i < |Chain()| && name in Chain()[i].bindings ==>
                 Chain()[i].bindings[name].Some?
      ensures FindValue(name) ==
              (if FindRecord(name).Some? then FindRecord(name).value.bindings[name] else None)
      decreases |outers|
    {
      var c := Chain();
      if name in envRec.bindings {
        assert name in c[0].bindings;
      } else if outer != null {
        assert c == [envRec] + outer.Chain();
        forall i | 0 <= i < |outer.Chain()| && name in outer.Chain()[i].bindings
          ensures outer.Chain()[i].bindings[name].Some?
        {
          assert outer.Chain()[i] == c[i + 1];
        }
        outer.FindValueReadsFoundRecord(name);
      }
    }

    /** Every chain ends at a global record. */
    lemma {:induction false} ChainEndsAtGlobal()
      requires Valid()
      ensures Chain()[|Chain()| - 1].kind.GlobalRecord?
      decreases |outers|
    {
      if outer != null {
        outer.ChainEndsAtGlobal();
      }
    }
  }

  /** 8.1.2.1 GetIdentifierReference: walks the chain and stops at the first binding record. */
  method GetIdentifierReference(lex: LexicalEnvironment, name: string, strict: bool)
    returns (ref: Reference)
    requires lex.Valid()
    ensures ref.name == name && ref.strict == strict
    ensures ref.base == lex.FindRecord(name)
    ensures ref.IsUnresolvable() <==> forall i :: 0 <= i < |lex.Chain()| ==> name !in lex.Chain()[i].bindings
  {
    lex.FindRecordNoneIffUnbound(name);
    var env: LexicalEnvironment? := lex;
    while env != null
      invariant env != null ==> env.Valid() && env.FindRecord(name) == lex.FindRecord(name)
      invariant env == null ==> lex.FindRecord(name).None?
      decreases if env == null then 0 else |env.outers| + 1
    {
      var r := env.envRec.GetReferenceOrNull(name, strict);
      if r.Some? {
        return r.value;
      }
      env := env.outer;
    }
    ref := IdentifierReference(None, name, strict);
  }

  /** `getIdentifierValueOrThrow`: the first value found on the chain, else a ReferenceError. */
  method GetIdentifierValueOrThrow(lex: LexicalEnvironment, name: string, strict: bool)
    returns (r: Result<Value, ErrorKind>)
    requires lex.Valid()
    ensures r.Err? <==> lex.FindValue(name).None?
    ensures r.Err? ==> r.error == ReferenceError
    ensures r.Ok? ==> r.value == lex.FindValue(name).value
  {
    var env: LexicalEnvironment? := lex;
    while env != null
      invariant env != null ==> env.Valid() && env.FindValue(name) == lex.FindValue(name)
      invariant env == null ==> lex.FindValue(name).None?
      decreases if env == null then 0 else |env.outers| + 1
    {
      var v := env.envRec.GetBindingValueOrNull(name, strict);
      if v.Some? {
        return Ok(v.value);
      }
      env := env.outer;
    }
    r := Err(ReferenceError);
  }

  /** `cloneDeclarativeEnvironment`: a fresh copy of the record under the same outer environment. */
  method CloneDeclarativeEnvironment(e: LexicalEnvironment) returns (r: LexicalEnvironment)
    requires e.Valid() && e.envRec.kind == Declarative
    ensures fresh(r) && fresh(r.envRec) && r.Valid()
    ensures r.outer == e.outer
    ensures r.envRec.kind == Declarative && r.envRec.bindings == e.envRec.bindings
    ensures forall n :: r.FindValue(n) == e.FindValue(n)
  {
    var rec := new EnvironmentRecord(Declarative, e.envRec.bindings);
    // a declarative environment is never the global one, so it has an outer environment
    var outer := e.outer;
    r := new LexicalEnvironment.Inner(outer, rec);
  }

  /** 8.1.2.2 NewDeclarativeEnvironment: an empty record enclosed by `e`, hiding nothing of it. */
  method NewDeclarativeEnvironment(e: LexicalEnvironment) returns (r: LexicalEnvironment)
    requires e.Valid()
    ensures fresh(r) && fresh(r.envRec) && r.Valid()
    ensures r.outer == e && r.envRec.kind == Declarative && r.envRec.bindings == map[]
    ensures forall n :: r.FindRecord(n) == e.FindRecord(n) && r.FindValue(n) == e.FindValue(n)
  {
    var rec := new EnvironmentRecord(Declarative, map[]);
    r := new LexicalEnvironment.Inner(e, rec);
  }

  /** 8.1.2.3 NewObjectEnvironment: a record backed by the object's properties, enclosed by `e`. */
  method NewObjectEnvironment(o: nat, properties: map<string, Option<Value>>, e: LexicalEnvironment,
                              withEnvironment: bool)
    returns (r: LexicalEnvironment)
    requires e.Valid()
    ensures fresh(r) && fresh(r.envRec) && r.Valid()
    ensures r.outer == e && r.envRec.kind == ObjectRecord(o, withEnvironment)
    ensures r.envRec.bindings == properties
  {
    var rec := new EnvironmentRecord(ObjectRecord(o, withEnvironment), properties);
    r := new LexicalEnvironment.Inner(e, rec);
  }

  /** The parts of a function object that NewFunctionEnvironment consults. */
  datatype FunctionObject = FunctionObject(
    thisMode: ThisMode,
    needsSuper: bool,
    homeObject: Option<nat>,
    environment: LexicalEnvironment)

  datatype ThisMode = Lexical | Strict | Global

  /**
   * 8.1.2.4 NewFunctionEnvironment. The caller passes no this-value exactly for a
   * lexical-this function; a function that needs `super` but has no home object throws.
   */
  method NewFunctionEnvironment(f: FunctionObject, t: Option<Value>)
    returns (r: Result<LexicalEnvironment, ErrorKind>)
    requires f.environment.Valid()
    requires f.thisMode == Lexical <==> t.None?
    ensures r.Err? <==> f.needsSuper && f.homeObject.None?
    ensures r.Err? ==> r.error == ReferenceError
    ensures r.Ok? ==> fresh(r.value) && fresh(r.value.envRec) && r.value.Valid()
    ensures r.Ok? ==> r.value.outer == f.environment
    ensures r.Ok? ==> r.value.envRec.kind == FunctionRecord(t, f.homeObject)
  {
    if f.needsSuper && f.homeObject.None? {
      return Err(ReferenceError);
    }
    var e := f.environment;
    var rec := new EnvironmentRecord(FunctionRecord(t, f.homeObject), map[]);
    var env := new LexicalEnvironment.Inner(e, rec);
    r := Ok(env);
  }

  /** 8.1.2.5 NewGlobalEnvironment: the only environment without an outer environment. */
  method NewGlobalEnvironment(g: nat, properties: map<string, Option<Value>>)
    returns (r: LexicalEnvironment)
    ensures fresh(r) && fresh(r.envRec) && r.Valid()
    ensures r.outer == null && r.envRec.kind == GlobalRecord(g) && r.envRec.bindings == properties
    ensures r.Chain() == [r.envRec]
  {
    var rec := new EnvironmentRecord(GlobalRecord(g), properties);
    r := new LexicalEnvironment.ForGlobal(rec);
  }

  /** 8.1.2.6 NewModuleEnvironment: an empty module record enclosed by `e`. */
  method NewModuleEnvironment(e: LexicalEnvironment) returns (r: LexicalEnvironment)
    requires e.Valid()
    ensures fresh(r) && fresh(r.envRec) && r.Valid()
    ensures r.outer == e && r.envRec.kind == Module && r.envRec.bindings == map[]
  {
    var rec := new EnvironmentRecord(Module, map[]);
    r := new LexicalEnvironment.Inner(e, rec);
  }
}
