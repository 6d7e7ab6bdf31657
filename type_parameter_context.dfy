/**
 * The scope of type-variable names used while decoding signatures: a map
 * from simple name to type parameter, chained to an optional parent scope.
 */
module TypeParameterContext {
  import opened JavaLang
  import opened JavaTypes

  class TypeParameterContext {
    var bindings: map<string, TypeParameter>
    const parent: TypeParameterContext?
    /** This context and its ancestors. */
    ghost const Repr: set<object>

    ghost predicate Valid()
      reads this, Repr
      decreases Repr
    {
      this in Repr &&
      (parent == null ==> Repr == {this}) &&
      (parent != null ==>
         parent in Repr && parent.Repr == Repr - {this} && this !in parent.Repr && parent.Valid())
    }

    /** Every name visible from this context; a binding here hides the parents' bindings. */
    ghost function Bindings(): map<string, TypeParameter>
      requires Valid()
      reads this, Repr
      decreases Repr
    {
      if parent == null then bindings else parent.Bindings() + bindings
    }

    /** A root context. */
    constructor ()
      ensures Valid() && fresh(Repr)
      ensures parent == null && bindings == map[] && Bindings() == map[]
    {
      bindings := map[];
      parent := null;
      Repr := {this};
    }

    constructor Child(p: TypeParameterContext)
      requires p.Valid()
      ensures Valid() && Repr == {this} + p.Repr
      ensures parent == p && bindings == map[] && Bindings() == p.Bindings()
    {
      bindings := map[];
      parent := p;
      Repr := {this} + p.Repr;
    }

    /** Binds the parameter under its simple name, replacing any binding of that name here. */
    method Add(typeParameter: TypeParameter)
      requires Valid()
      modifies this
      ensures Valid()
      ensures bindings == old(bindings)[typeParameter.name := typeParameter]
      ensures Bindings() == old(Bindings())[typeParameter.name := typeParameter]
      ensures parent != null ==> parent.Bindings() == old(parent.Bindings())
    {
      bindings := bindings[typeParameter.name := typeParameter];
    }

    /**
     * The binding of the name here if there is one, otherwise the parent's
     * answer; None when no context of the chain binds the name.
     */
    function Get(typeParamName: string): (r: Option<TypeParameter>)
      requires Valid()
      reads this, Repr
      ensures r.Some? <==> typeParamName in Bindings()
      ensures r.Some? ==> r.value == Bindings()[typeParamName]
      ensures typeParamName in bindings ==> r == Some(bindings[typeParamName])
      decreases Repr
    {
      if typeParamName in bindings then Some(bindings[typeParamName])
      else if parent == null then None
      else parent.Get(typeParamName)
    }

    /** A fresh child scope: it sees every binding of this one and starts with none of its own. */
    method NewContext() returns (c: TypeParameterContext)
      requires Valid()
      ensures fresh(c) && c.Valid() && c.parent == this && c.bindings == map[]
      ensures c.Repr == {c} + Repr
      ensures c.Bindings() == Bindings()
    {
      c := new TypeParameterContext.Child(this);
    }
  }
}
