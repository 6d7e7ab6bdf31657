/**
 * The variables visible at a point of a method body (VariableContextImpl):
 * local variables, parameters and fields by simple name, and the enclosing
 * context, consulted when a name is bound in none of the three.
 */
module VariableContext {
  import opened JavaLang

  datatype FieldReference = FieldReference(simpleName: string, ownerType: string)
  datatype ParameterInfo = ParameterInfo(simpleName: string, index: nat)
  /** A local variable; two declarations of one name are told apart by where they are declared. */
  datatype LocalVariable = LocalVariable(simpleName: string, declaredAt: nat)

  datatype Variable = Field(field: FieldReference) | Parameter(parameter: ParameterInfo) | Local(local: LocalVariable)

  function SimpleName(v: Variable): string
  {
    match v
    case Field(f) => f.simpleName
    case Parameter(p) => p.simpleName
    case Local(l) => l.simpleName
  }

  function UnknownVariable(name: string): string
  {
    "Unknown variable in context: '" + name + "'"
  }

  /** `addAll`: each local put in list order, so a later one of the same name wins. */
  function PutLocals(m: map<string, LocalVariable>, ls: seq<LocalVariable>): map<string, LocalVariable>
    decreases |ls|
  {
    if ls == [] then m else PutLocals(m[ls[0].simpleName := ls[0]], ls[1..])
  }

  /** The last local of that name in `ls`, if any. */
  function LastNamed(ls: seq<LocalVariable>, name: string): (r: Option<LocalVariable>)
    ensures r.Some? ==> r.value in ls && r.value.simpleName == name
    ensures r.None? <==> forall k :: 0 <= k < |ls| ==> ls[k].simpleName != name
    decreases |ls|
  {
    if ls == [] then None
    else if ls[|ls| - 1].simpleName == name then Some(ls[|ls| - 1])
    else LastNamed(ls[..|ls| - 1], name)
  }

  lemma {:induction false} PutLocalsSnoc(m: map<string, LocalVariable>, ls: seq<LocalVariable>, l: LocalVariable)
    ensures PutLocals(m, ls + [l]) == PutLocals(m, ls)[l.simpleName := l]
    decreases |ls|
  {
    if ls == [] {
      assert [] + [l] == [l];
      assert [l][1..] == [];
    } else {
      assert (ls + [l])[0] == ls[0];
      assert (ls + [l])[1..] == ls[1..] + [l];
      PutLocalsSnoc(m[ls[0].simpleName := ls[0]], ls[1..], l);
    }
  }

  /** After `addAll`, a name is bound to its last local in the list, or as before when the list has none. */
  lemma {:induction false} PutLocalsLastWins(m: map<string, LocalVariable>, ls: seq<LocalVariable>, name: string)
    ensures var r := PutLocals(m, ls);
      match LastNamed(ls, name)
      case Some(l) => name in r && r[name] == l
      case None => (name in r <==> name in m) && (name in m ==> r[name] == m[name])
    decreases |ls|
  {
    if ls != [] {
      var init := ls[..|ls| - 1];
      var l := ls[|ls| - 1];
      assert ls == init + [l];
      PutLocalsSnoc(m, init, l);
      PutLocalsLastWins(m, init, name);
    }
  }

  class VariableContext {
    const parentContext: VariableContext?
    /** The nesting depth; a parent is always shallower. */
    ghost const depth: nat
    var fields: map<string, FieldReference>
    var localVars: map<string, LocalVariable>
    var parameters: map<string, ParameterInfo>

    /** This context and its enclosing ones. */
    ghost function Chain(): (r: set<VariableContext>)
      ensures this in r
      ensures forall c :: c in r ==> c.depth <= depth
      decreases depth
    {
      if parentContext != null && parentContext.depth < depth then {this} + parentContext.Chain() else {this}
    }

    /** Every map binds a variable under that variable's own simple name. */
    ghost predicate KeyedByName()
      reads this
    {
      (forall n :: n in fields ==> fields[n].simpleName == n) &&
      (forall n :: n in localVars ==> localVars[n].simpleName == n) &&
      (forall n :: n in parameters ==> parameters[n].simpleName == n)
    }

    ghost predicate Valid()
      reads Chain()
      decreases depth
    {
      KeyedByName() && (parentContext != null ==> parentContext.depth < depth && parentContext.Valid())
    }

    /** The name is bound nowhere in this context or an enclosing one. */
    ghost predicate Absent(name: string)
      requires Valid()
      reads Chain()
      decreases depth
    {
      name !in localVars && name !in parameters && name !in fields &&
      (parentContext != null ==> parentContext.Absent(name))
    }

    constructor ()
      ensures parentContext == null && depth == 0 && Valid()
      ensures fields == map[] && localVars == map[] && parameters == map[]
    {
      parentContext := null;
      depth := 0;
      fields := map[];
      localVars := map[];
      parameters := map[];
    }

    constructor Nested(parent: VariableContext)
      requires parent.Valid()
      ensures parentContext == parent && depth == parent.depth + 1 && Valid()
      ensures fields == map[] && localVars == map[] && parameters == map[]
      ensures forall n, c :: parent.Get(n, c) == old(parent.Get(n, c))
    {
      parentContext := parent;
      depth := parent.depth + 1;
      fields := map[];
      localVars := map[];
      parameters := map[];
      new;
      assert this !in parent.Chain();
    }

    /**
     * Locals, then parameters, then fields, then the enclosing context (asked
     * not to complain); unknown everywhere is an error only when `complain`.
     */
    function Get(name: string, complain: bool): (r: Try<Option<Variable>>)
      requires Valid()
      reads Chain()
      ensures r.Failure? <==> complain && Absent(name)
      ensures r.Failure? ==> r.exception == UnsupportedOperation(UnknownVariable(name))
      ensures r.Success? && r.value.Some? ==> SimpleName(r.value.value) == name
      ensures r == Success(None) <==> !complain && Absent(name)
      decreases depth
    {
      if name in localVars then Success(Some(Local(localVars[name])))
      else if name in parameters then Success(Some(Parameter(parameters[name])))
      else if name in fields then Success(Some(Field(fields[name])))
      else
        var variable := if parentContext != null then parentContext.Get(name, false) else Success(None);
        if variable == Success(None) && complain then Failure(UnsupportedOperation(UnknownVariable(name)))
        else variable
    }

    /** The parent's chain never contains this context, so changing this one leaves the parent's lookups alone. */
    lemma ParentChainExcludes()
      requires Valid() && parentContext != null
      ensures this !in parentContext.Chain()
    {
    }

    /** Fields are added in declaration order and never overwritten: the first binding of a name wins. */
    method AddField(variable: FieldReference)
      requires Valid()
      modifies this
      ensures Valid()
      ensures fields == if variable.simpleName in old(fields) then old(fields) else old(fields)[variable.simpleName := variable]
      ensures localVars == old(localVars) && parameters == old(parameters)
      ensures parentContext != null ==> forall n, c :: parentContext.Get(n, c) == old(parentContext.Get(n, c))
    {
      if parentContext != null {
        ParentChainExcludes();
      }
      if variable.simpleName !in fields {
        fields := fields[variable.simpleName := variable];
      }
    }

    /** A parameter overwrites an earlier one of the same name. */
    method AddParameter(variable: ParameterInfo)
      requires Valid()
      modifies this
      ensures Valid()
      ensures parameters == old(parameters)[variable.simpleName := variable]
      ensures localVars == old(localVars) && fields == old(fields)
      ensures parentContext != null ==> forall n, c :: parentContext.Get(n, c) == old(parentContext.Get(n, c))
    {
      if parentContext != null {
        ParentChainExcludes();
      }
      parameters := parameters[variable.simpleName := variable];
    }

    /** A local overwrites an earlier one of the same name. */
    method AddLocal(variable: LocalVariable)
      requires Valid()
      modifies this
      ensures Valid()
      ensures localVars == old(localVars)[variable.simpleName := variable]
      ensures parameters == old(parameters) && fields == old(fields)
      ensures parentContext != null ==> forall n, c :: parentContext.Get(n, c) == old(parentContext.Get(n, c))
    {
      if parentContext != null {
        ParentChainExcludes();
      }
      localVars := localVars[variable.simpleName := variable];
    }

    method AddAll(localVariables: seq<LocalVariable>)
      requires Valid()
      modifies this
      ensures Valid()
      ensures localVars == PutLocals(old(localVars), localVariables)
      ensures parameters == old(parameters) && fields == old(fields)
      ensures parentContext != null ==> forall n, c :: parentContext.Get(n, c) == old(parentContext.Get(n, c))
    {
      if parentContext != null {
        ParentChainExcludes();
      }
      var i := 0;
      while i < |localVariables|
        invariant i <= |localVariables|
        invariant localVars == PutLocals(old(localVars), localVariables[..i])
        invariant parameters == old(parameters) && fields == old(fields)
        invariant Valid()
        invariant parentContext != null ==> forall n, c :: parentContext.Get(n, c) == old(parentContext.Get(n, c))
        decreases |localVariables| - i
      {
        var lvr := localVariables[i];
        assert localVariables[..i + 1] == localVariables[..i] + [lvr];
        PutLocalsSnoc(old(localVars), localVariables[..i], lvr);
        localVars := localVars[lvr.simpleName := lvr];
        i := i + 1;
      }
      assert localVariables[..i] == localVariables;
    }
  }

  /**
   * A local declared in a nested scope is found there, and is unknown in the
   * enclosing context afterwards.
   */
  method NestedScopeForgotten(outer: VariableContext, l: LocalVariable) returns (inside: Try<Option<Variable>>, after: Try<Option<Variable>>)
    requires outer.Valid() && outer.Get(l.simpleName, false) == Success(None)
    ensures inside == Success(Some(Local(l)))
    ensures after == Success(None)
  {
    var nested := new VariableContext.Nested(outer);
    nested.AddLocal(l);
    inside := nested.Get(l.simpleName, false);
    after := outer.Get(l.simpleName, false);
  }
}
