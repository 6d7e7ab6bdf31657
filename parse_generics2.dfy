/**
 * ParseGenerics2: the type-parameter section decoder of ParseGenerics, with
 * the owner fixed to the type being read, no stubs for unloadable bounds,
 * and the decoded type parameters added to that type's own list.
 */
module ParseGenerics2 {
  import opened JavaLang
  import opened JavaTypes
  import opened TypeParameterContext
  import opened ParameterizedTypeFactory
  import opened ParseGenerics

  /**
   * The type builder's addOrSetTypeParameter: the parameter takes the place
   * of its index when the list already reaches that far, and is appended
   * otherwise.
   */
  function AddOrSet(list: seq<TypeParameter>, tp: TypeParameter): (r: seq<TypeParameter>)
    ensures |r| == if tp.index < |list| then |list| else |list| + 1
  {
    if tp.index < |list| then list[tp.index := tp] else list + [tp]
  }

  /** addOrSetTypeParameter applied to each parameter in turn. */
  function AddOrSetAll(list: seq<TypeParameter>, tps: seq<TypeParameter>): seq<TypeParameter>
    decreases |tps|
  {
    if tps == [] then list else AddOrSetAll(AddOrSet(list, tps[0]), tps[1..])
  }

  /**
   * Parameters numbered 0, 1, ... in order each end up at their own index,
   * replacing what the type had there; the rest of its list is kept.
   */
  lemma {:induction false} AddOrSetAllNumbered(list: seq<TypeParameter>, tps: seq<TypeParameter>, k: nat)
    requires k <= |list| && forall i :: 0 <= i < |tps| ==> tps[i].index == k + i
    ensures var r := AddOrSetAll(list, tps);
      |r| == (if k + |tps| <= |list| then |list| else k + |tps|) &&
      r[..k] == list[..k] &&
      (forall i :: 0 <= i < |tps| ==> r[k + i] == tps[i]) &&
      (k + |tps| <= |list| ==> r[k + |tps|..] == list[k + |tps|..])
    decreases |tps|
  {
    if tps != [] {
      var list' := AddOrSet(list, tps[0]);
      assert list'[..k] == list[..k];
      assert list'[k] == tps[0];
      AddOrSetAllNumbered(list', tps[1..], k + 1);
      var r := AddOrSetAll(list', tps[1..]);
      assert r[..k] == list'[..k + 1][..k];
      forall i | 0 <= i < |tps|
        ensures r[k + i] == tps[i]
      {
        if i > 0 {
          assert tps[1..][i - 1] == tps[i];
        } else {
          assert r[..k + 1][k] == list'[..k + 1][k];
        }
      }
      if k + |tps| <= |list| {
        assert list'[k + 1 + |tps[1..]|..] == list[k + |tps|..];
      }
    }
  }

  /** A type without type parameters gets exactly the decoded ones, in order. */
  lemma {:induction false} AddedToFreshType(tps: seq<TypeParameter>)
    requires forall i :: 0 <= i < |tps| ==> tps[i].index == i
    ensures AddOrSetAll([], tps) == tps
  {
    AddOrSetAllNumbered([], tps, 0);
    var r := AddOrSetAll([], tps);
    assert forall i :: 0 <= i < |tps| ==> r[i] == tps[i] by {
      forall i | 0 <= i < |tps| ensures r[i] == tps[i] { assert r[0 + i] == tps[i]; }
    }
  }

  class ParseGenerics2 {
    const typeParameterContext: TypeParameterContext
    /** The fully qualified name of the type whose signature is read. */
    const typeInfo: string
    const loadable: set<string>
    const signature: string
    /** The type parameters of the type being read, as its builder holds them. */
    var typeInfoTypeParameters: seq<TypeParameter>
    /** The bounds setTypeBounds gave the type's parameters, by parameter index. */
    var typeInfoBounds: map<nat, seq<ParameterizedType>>

    ghost predicate Valid()
      reads this, typeParameterContext, typeParameterContext.Repr
    {
      typeParameterContext.Valid() && this !in typeParameterContext.Repr
    }

    constructor (typeParameterContext: TypeParameterContext, typeInfo: string, loadable: set<string>,
                 signature: string, typeInfoTypeParameters: seq<TypeParameter>,
                 typeInfoBounds: map<nat, seq<ParameterizedType>>)
      requires typeParameterContext.Valid()
      ensures Valid() && this.typeParameterContext == typeParameterContext && this.typeInfo == typeInfo
      ensures this.loadable == loadable && this.signature == signature
      ensures this.typeInfoTypeParameters == typeInfoTypeParameters && this.typeInfoBounds == typeInfoBounds
    {
      this.typeParameterContext := typeParameterContext;
      this.typeInfo := typeInfo;
      this.loadable := loadable;
      this.signature := signature;
      this.typeInfoTypeParameters := typeInfoTypeParameters;
      this.typeInfoBounds := typeInfoBounds;
    }

    /**
     * goReturnEndPos: the index of the closing `>`, or -1 when a bound cannot
     * be loaded; on success the type parameters are added to the type in
     * order, each with the bounds the run set on it (never `java.lang.Object`),
     * otherwise the type is left as it was.
     */
    method GoReturnEndPos() returns (r: Parse<int>)
      requires Valid()
      modifies this, typeParameterContext
      ensures Valid()
      ensures var o := Go(Config(typeInfo, loadable, signature, false),
                          GenState(old(typeParameterContext.Bindings()), [], map[], 0, 0, false, false), 0);
        r == ResultOf(o) && typeParameterContext.Bindings() == o.state.scope &&
        typeInfoTypeParameters ==
          (if o.status == Ok then AddOrSetAll(old(typeInfoTypeParameters), o.state.typeParameters)
           else old(typeInfoTypeParameters)) &&
        typeInfoBounds == (if o.status == Ok then old(typeInfoBounds) + o.state.typeBounds else old(typeInfoBounds))
      ensures NoObjectBounds(old(typeInfoBounds)) ==> NoObjectBounds(typeInfoBounds)
    {
      ghost var o := Go(Config(typeInfo, loadable, signature, false),
                        GenState(typeParameterContext.Bindings(), [], map[], 0, 0, false, false), 0);
      ObjectBoundsDropped(Config(typeInfo, loadable, signature, false),
                          GenState(typeParameterContext.Bindings(), [], map[], 0, 0, false, false), 0);
      var parser := new ParseGenerics(typeParameterContext, typeInfo, loadable, signature, false);
      var status := parser.RetryLoop();
      assert Outcome(status, parser.State()) == o;
      match status {
        case LoadFailed => return Done(-1);
        case Failed(e) => return Threw(e);
        case Diverges => return Loops;
        case Ok =>
      }
      var typeParameters := parser.typeParameters;
      var endPos := parser.endPos;
      var typeBounds := parser.typeBounds;
      assert typeParameters == o.state.typeParameters && endPos == o.state.endPos && typeBounds == o.state.typeBounds;
      AddAll(typeParameters);
      SetBounds(typeBounds);
      return Done(endPos);
    }

    /** setTypeBounds on each decoded parameter: its bounds are recorded under its index. */
    method SetBounds(typeBounds: map<nat, seq<ParameterizedType>>)
      modifies this`typeInfoBounds
      ensures typeInfoBounds == old(typeInfoBounds) + typeBounds
      ensures NoObjectBounds(old(typeInfoBounds)) && NoObjectBounds(typeBounds) ==> NoObjectBounds(typeInfoBounds)
    {
      typeInfoBounds := typeInfoBounds + typeBounds;
    }

    /** The final loop of goReturnEndPos: addOrSetTypeParameter for each parameter, in order. */
    method AddAll(typeParameters: seq<TypeParameter>)
      requires Valid()
      modifies this`typeInfoTypeParameters
      ensures Valid() && typeParameterContext.Bindings() == old(typeParameterContext.Bindings())
      ensures typeInfoTypeParameters == AddOrSetAll(old(typeInfoTypeParameters), typeParameters)
    {
      var i := 0;
      while i < |typeParameters|
        invariant 0 <= i <= |typeParameters| && Valid()
        invariant typeParameterContext.Bindings() == old(typeParameterContext.Bindings())
        invariant AddOrSetAll(old(typeInfoTypeParameters), typeParameters)
               == AddOrSetAll(typeInfoTypeParameters, typeParameters[i..])
      {
        assert typeParameters[i..][1..] == typeParameters[i + 1..];
        typeInfoTypeParameters := AddOrSet(typeInfoTypeParameters, typeParameters[i]);
        i := i + 1;
      }
      assert typeParameters[i..] == [];
    }
  }

  /**
   * The type-parameter list a successful run leaves on a type that had none:
   * the decoded parameters, numbered 0, 1, ... in declaration order and
   * owned by the type.
   */
  lemma {:induction false} FreshTypeGetsNumberedParameters(ctx: map<string, TypeParameter>, typeInfo: string,
                                                           loadable: set<string>, signature: string)
    ensures var o := Go(Config(typeInfo, loadable, signature, false), GenState(ctx, [], map[], 0, 0, false, false), 0);
      var tps := o.state.typeParameters;
      o.status == Ok ==>
        AddOrSetAll([], tps) == tps && forall i :: 0 <= i < |tps| ==> tps[i].index == i && tps[i].owner == typeInfo
  {
    var cfg := Config(typeInfo, loadable, signature, false);
    var s := GenState(ctx, [], map[], 0, 0, false, false);
    TypeParametersNumbered(cfg, s);
    var tps := Go(cfg, s, 0).state.typeParameters;
    AddedToFreshType(tps);
  }
}
