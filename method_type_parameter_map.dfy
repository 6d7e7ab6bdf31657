/**
 * The pairing of a (single abstract) method with the concrete types bound to
 * type variables (MethodTypeParameterMap): the concrete parameter and return
 * types of a functional interface's method, with varargs clamping; the
 * functional type inferred from a lambda's types; the expansion and the
 * composition of binding maps; and the binding of a formal type variable to a
 * concrete type.
 *
 * The operations of the runtime the source calls - applying a binding map to a
 * type, `mostSpecific`, `ensureBoxed`, a translation map - are parameters.
 */
module MethodTypeParameterMap {
  import opened JavaLang
  import opened JavaTypes
  import opened TypeParameterMap

  datatype ParameterInfo = ParameterInfo(parameterizedType: ParameterizedType, isVarArgs: bool)

  /** A method: its name, its owner type with that type's type parameters, its parameters and return type. */
  datatype MethodInfo = MethodInfo(
    fullyQualifiedName: string,
    owner: TypeInfo,
    ownerTypeParameters: seq<TypeParameter>,
    parameters: seq<ParameterInfo>,
    returnType: ParameterizedType)

  /** `methodInfo` is absent when no single abstract method was found. */
  datatype MethodTypeParameterMap = MethodTypeParameterMap(methodInfo: Option<MethodInfo>, concreteTypes: Bindings)

  /** `applyTranslation`: the type with the bindings substituted. */
  type Translation = (ParameterizedType, Bindings) -> ParameterizedType

  const NOT_A_SAM := "Can only be called on a single abstract method"

  predicate IsSingleAbstractMethod(mt: MethodTypeParameterMap) { mt.methodInfo.Some? }

  // ---------------------------------------------------------------------------
  // concrete return and parameter types
  // ---------------------------------------------------------------------------

  function GetConcreteReturnType(mt: MethodTypeParameterMap, apply: Translation): (r: Try<ParameterizedType>)
    ensures r.Failure? <==> !IsSingleAbstractMethod(mt)
    ensures r.Failure? ==> r.exception == UnsupportedOperation(NOT_A_SAM)
    ensures r.Success? ==> r.value == apply(mt.methodInfo.value.returnType, mt.concreteTypes)
  {
    if mt.methodInfo.None? then Failure(UnsupportedOperation(NOT_A_SAM))
    else Success(apply(mt.methodInfo.value.returnType, mt.concreteTypes))
  }

  /** The parameter consulted for argument `i`: any `i >= n` reads the last one (varargs). */
  function ParameterIndex(i: int, n: nat): int
  {
    if i >= n then n - 1 else i
  }

  function GetConcreteTypeOfParameter(mt: MethodTypeParameterMap, apply: Translation, i: int): Try<ParameterizedType>
  {
    if mt.methodInfo.None? then Failure(UnsupportedOperation(NOT_A_SAM))
    else
      var ps := mt.methodInfo.value.parameters;
      var index := ParameterIndex(i, |ps|);
      if index < 0 then Failure(IndexOutOfBounds)
      else Success(apply(ps[index].parameterizedType, mt.concreteTypes))
  }

  /**
   * Without a method the query throws; with one it succeeds exactly when the
   * method has a parameter and `i` is not negative, and then reads parameter
   * `i`, or the last parameter for every `i` past the end.
   */
  lemma ConcreteTypeOfParameter(mt: MethodTypeParameterMap, apply: Translation, i: int)
    ensures var r := GetConcreteTypeOfParameter(mt, apply, i);
      (!IsSingleAbstractMethod(mt) ==> r == Failure(UnsupportedOperation(NOT_A_SAM))) &&
      (IsSingleAbstractMethod(mt) ==>
        var ps := mt.methodInfo.value.parameters;
        (r.Success? <==> 0 <= i && |ps| > 0) &&
        (r.Success? && i < |ps| ==> r.value == apply(ps[i].parameterizedType, mt.concreteTypes)) &&
        (r.Success? && i >= |ps| ==> r.value == apply(ps[|ps| - 1].parameterizedType, mt.concreteTypes)))
  {
  }

  /** Every argument position from the last parameter on has the same concrete type. */
  lemma VarargsClamped(mt: MethodTypeParameterMap, apply: Translation, i: int)
    requires IsSingleAbstractMethod(mt)
    requires i >= |mt.methodInfo.value.parameters| - 1
    ensures GetConcreteTypeOfParameter(mt, apply, i) ==
      GetConcreteTypeOfParameter(mt, apply, |mt.methodInfo.value.parameters| - 1)
  {
  }

  /**
   * The formal type of argument `pos`. Past the end the last parameter must be
   * varargs, and its element type (one array fewer) is returned. There is no
   * check for a missing method: the call dereferences it.
   */
  function ParameterizedTypeAt(mt: MethodTypeParameterMap, pos: int): (r: Try<ParameterizedType>)
    ensures mt.methodInfo.None? ==> r == Failure(NullPointer)
    ensures mt.methodInfo.Some? && 0 <= pos < |mt.methodInfo.value.parameters| ==>
      r == Success(mt.methodInfo.value.parameters[pos].parameterizedType)
  {
    if mt.methodInfo.None? then Failure(NullPointer)
    else
      var ps := mt.methodInfo.value.parameters;
      if pos < |ps| then
        if pos < 0 then Failure(IndexOutOfBounds) else Success(ps[pos].parameterizedType)
      else if |ps| == 0 then Failure(IndexOutOfBounds)
      else if !ps[|ps| - 1].isVarArgs then Failure(UnsupportedOperation(""))
      else Success(CopyWithFewerArrays(ps[|ps| - 1].parameterizedType, 1))
  }

  /** Past the last parameter: success exactly for a varargs last parameter, with one array dimension fewer. */
  lemma PastTheEnd(mt: MethodTypeParameterMap, pos: int)
    requires mt.methodInfo.Some? && pos >= |mt.methodInfo.value.parameters|
    ensures var ps := mt.methodInfo.value.parameters; var r := ParameterizedTypeAt(mt, pos);
      (r.Success? <==> |ps| > 0 && ps[|ps| - 1].isVarArgs) &&
      (r.Success? ==> ArraysOf(r.value) == Max0(ArraysOf(ps[|ps| - 1].parameterizedType) - 1)) &&
      (|ps| > 0 && !ps[|ps| - 1].isVarArgs ==> r == Failure(UnsupportedOperation("")))
  {
  }

  // ---------------------------------------------------------------------------
  // expand and translate
  // ---------------------------------------------------------------------------

  /** The bindings of `ct` with those of `exp` at `keys` added, `mostSpecific` deciding a key bound in both. */
  function Expanded(ct: Bindings, mostSpecific: (ParameterizedType, ParameterizedType) -> ParameterizedType,
                    exp: Bindings, keys: set<NamedType>): Bindings
  {
    map k | k in ct.Keys + (keys * exp.Keys) ::
      if k in ct && k in keys && k in exp then mostSpecific(ct[k], exp[k]) else if k in ct then ct[k] else exp[k]
  }

  /** One `merge` call: `k` bound to the added value, or to `mostSpecific` of both when already bound. */
  method MergeOne(ct: Bindings, mostSpecific: (ParameterizedType, ParameterizedType) -> ParameterizedType,
                  exp: Bindings, ghost keys: set<NamedType>, k: NamedType, join: Bindings) returns (r: Bindings)
    requires keys <= exp.Keys && k in exp && k !in keys
    requires join == Expanded(ct, mostSpecific, exp, keys)
    ensures r == Expanded(ct, mostSpecific, exp, keys + {k})
  {
    r := join[k := if k in join then mostSpecific(join[k], exp[k]) else exp[k]];
  }

  /**
   * Adds the bindings of `mapExpansion`; a key bound on both sides is bound to
   * `mostSpecific(existing, added)`.
   */
  method Expand(mt: MethodTypeParameterMap, mostSpecific: (ParameterizedType, ParameterizedType) -> ParameterizedType,
                mapExpansion: Bindings) returns (r: MethodTypeParameterMap)
    ensures r.methodInfo == mt.methodInfo
    ensures r.concreteTypes.Keys == mt.concreteTypes.Keys + mapExpansion.Keys
    ensures forall k :: k in mt.concreteTypes && k !in mapExpansion ==> r.concreteTypes[k] == mt.concreteTypes[k]
    ensures forall k :: k !in mt.concreteTypes && k in mapExpansion ==> r.concreteTypes[k] == mapExpansion[k]
    ensures forall k :: k in mt.concreteTypes && k in mapExpansion ==>
      r.concreteTypes[k] == mostSpecific(mt.concreteTypes[k], mapExpansion[k])
  {
    var join := ExpandBindings(mt.concreteTypes, mostSpecific, mapExpansion);
    r := MethodTypeParameterMap(mt.methodInfo, join);
  }

  /** The `merge` loop of `expand`, over the keys of `mapExpansion`. */
  method ExpandBindings(ct: Bindings, mostSpecific: (ParameterizedType, ParameterizedType) -> ParameterizedType,
                        mapExpansion: Bindings) returns (join: Bindings)
    ensures join == Expanded(ct, mostSpecific, mapExpansion, mapExpansion.Keys)
  {
    join := ct;
    var todo := mapExpansion.Keys;
    ghost var done: set<NamedType> := {};
    ExpandedNothing(ct, mostSpecific, mapExpansion);
    while todo != {}
      invariant done == mapExpansion.Keys - todo
      invariant todo <= mapExpansion.Keys
      invariant join == Expanded(ct, mostSpecific, mapExpansion, done)
      decreases |todo|
    {
      var k :| k in todo;
      join := MergeOne(ct, mostSpecific, mapExpansion, done, k, join);
      done := done + {k};
      todo := todo - {k};
    }
    assert done == mapExpansion.Keys;
  }

  lemma ExpandedNothing(ct: Bindings, mostSpecific: (ParameterizedType, ParameterizedType) -> ParameterizedType,
                        exp: Bindings)
    ensures Expanded(ct, mostSpecific, exp, {}) == ct
  {
  }

  /** Every bound value translated; the keys and the method stay. */
  function Translate(mt: MethodTypeParameterMap, translateType: ParameterizedType -> ParameterizedType): (r: MethodTypeParameterMap)
    ensures r.methodInfo == mt.methodInfo && r.concreteTypes.Keys == mt.concreteTypes.Keys
    ensures forall k :: k in mt.concreteTypes ==> r.concreteTypes[k] == translateType(mt.concreteTypes[k])
  {
    MethodTypeParameterMap(mt.methodInfo, map k | k in mt.concreteTypes :: translateType(mt.concreteTypes[k]))
  }

  // ---------------------------------------------------------------------------
  // isAssignableFrom
  // ---------------------------------------------------------------------------

  predicate IsVoidOrJavaLangVoid(pt: ParameterizedType)
  {
    (pt.PrimitiveType? && pt.primitive == Void) ||
    (pt.ClassType? && FullyQualifiedName(pt.typeInfo) == "java.lang.Void")
  }

  /** True for the same method, false for a different number of parameters, else whether both or neither return void. */
  function IsAssignableFrom(mt: MethodTypeParameterMap, other: MethodTypeParameterMap): (r: Try<bool>)
    ensures r.Failure? <==> !IsSingleAbstractMethod(mt) || !IsSingleAbstractMethod(other)
    ensures r.Success? && mt.methodInfo == other.methodInfo ==> r.value
    ensures r.Success? && |mt.methodInfo.value.parameters| != |other.methodInfo.value.parameters| ==> !r.value
  {
    if mt.methodInfo.None? || other.methodInfo.None? then Failure(UnsupportedOperation(""))
    else
      var m := mt.methodInfo.value;
      var o := other.methodInfo.value;
      if m == o then Success(true)
      else if |m.parameters| != |o.parameters| then Success(false)
      else Success(IsVoidOrJavaLangVoid(m.returnType) == IsVoidOrJavaLangVoid(o.returnType))
  }

  /** The relation is symmetric. */
  lemma AssignableSymmetric(mt: MethodTypeParameterMap, other: MethodTypeParameterMap)
    ensures IsAssignableFrom(mt, other) == IsAssignableFrom(other, mt)
  {
  }

  /** Two methods with as many parameters are related exactly when both or neither return void. */
  lemma AssignableSameArity(mt: MethodTypeParameterMap, other: MethodTypeParameterMap)
    requires IsSingleAbstractMethod(mt) && IsSingleAbstractMethod(other)
    requires |mt.methodInfo.value.parameters| == |other.methodInfo.value.parameters|
    ensures IsAssignableFrom(mt, other) == Success(
      IsVoidOrJavaLangVoid(mt.methodInfo.value.returnType) == IsVoidOrJavaLangVoid(other.methodInfo.value.returnType))
  {
  }

  // ---------------------------------------------------------------------------
  // inferFunctionalType
  // ---------------------------------------------------------------------------

  /** The parameter's type is the type variable `tp` itself. */
  predicate Refers(pt: ParameterizedType, tp: TypeParameter)
  {
    pt.TypeVariable? && pt.typeParameter == tp
  }

  /** The first parameter from position `i` on whose type is `tp`. */
  function FirstPositionFrom(ps: seq<ParameterInfo>, tp: TypeParameter, i: nat): (r: Option<nat>)
    requires i <= |ps|
    ensures r.Some? ==> i <= r.value < |ps| && Refers(ps[r.value].parameterizedType, tp)
    ensures r.Some? ==> forall k :: i <= k < r.value ==> !Refers(ps[k].parameterizedType, tp)
    ensures r.None? ==> forall k :: i <= k < |ps| ==> !Refers(ps[k].parameterizedType, tp)
    decreases |ps| - i
  {
    if i == |ps| then None
    else if Refers(ps[i].parameterizedType, tp) then Some(i)
    else FirstPositionFrom(ps, tp, i + 1)
  }

  /** Counts through the parameters until one has type `tp`. */
  method ParameterPosition(ps: seq<ParameterInfo>, tp: TypeParameter) returns (r: Option<nat>)
    ensures r == FirstPositionFrom(ps, tp, 0)
  {
    var cnt := 0;
    while cnt < |ps|
      invariant cnt <= |ps|
      invariant FirstPositionFrom(ps, tp, cnt) == FirstPositionFrom(ps, tp, 0)
      decreases |ps| - cnt
    {
      if Refers(ps[cnt].parameterizedType, tp) {
        return Some(cnt);
      }
      cnt := cnt + 1;
    }
    return None;
  }

  /**
   * The type for one type parameter of the functional type: the lambda's type
   * at the first parameter that has it, else the inferred return type when the
   * method returns it, else the type parameter itself; boxed.
   */
  function ComputedFor(mi: MethodInfo, types: seq<ParameterizedType>, inferredReturnType: ParameterizedType,
                       box: ParameterizedType -> ParameterizedType, tp: TypeParameter): Try<ParameterizedType>
  {
    match FirstPositionFrom(mi.parameters, tp, 0)
    case Some(c) => if c < |types| then Success(box(types[c])) else Failure(IndexOutOfBounds)
    case None =>
      if Refers(mi.returnType, tp) then Success(box(inferredReturnType))
      else Success(box(TypeVariable(tp, 0, NoWildcard)))
  }

  /** The computed types for `tps`, in order; the first failure ends the list. */
  function ComputedAll(mi: MethodInfo, types: seq<ParameterizedType>, inferredReturnType: ParameterizedType,
                       box: ParameterizedType -> ParameterizedType, tps: seq<TypeParameter>): Try<seq<ParameterizedType>>
    decreases |tps|
  {
    if tps == [] then Success([])
    else match ComputedFor(mi, types, inferredReturnType, box, tps[0])
      case Failure(e) => Failure(e)
      case Success(pt) =>
        match ComputedAll(mi, types, inferredReturnType, box, tps[1..])
        case Failure(e) => Failure(e)
        case Success(rest) => Success([pt] + rest)
  }

  /** One entry per type parameter of the owner, each as `ComputedFor` says; a failure exactly when one fails. */
  lemma {:induction false} ComputedAllEntries(mi: MethodInfo, types: seq<ParameterizedType>, inferredReturnType: ParameterizedType,
                                              box: ParameterizedType -> ParameterizedType, tps: seq<TypeParameter>)
    ensures var r := ComputedAll(mi, types, inferredReturnType, box, tps);
      (r.Success? <==> forall k :: 0 <= k < |tps| ==> ComputedFor(mi, types, inferredReturnType, box, tps[k]).Success?) &&
      (r.Success? ==>
        |r.value| == |tps| &&
        forall k :: 0 <= k < |tps| ==> Success(r.value[k]) == ComputedFor(mi, types, inferredReturnType, box, tps[k]))
    decreases |tps|
  {
    if tps != [] {
      ComputedAllEntries(mi, types, inferredReturnType, box, tps[1..]);
      var r := ComputedAll(mi, types, inferredReturnType, box, tps);
      if r.Success? {
        var rest := ComputedAll(mi, types, inferredReturnType, box, tps[1..]).value;
        forall k | 0 <= k < |tps| ensures Success(r.value[k]) == ComputedFor(mi, types, inferredReturnType, box, tps[k]) {
          if k > 0 {
            assert r.value[k] == rest[k - 1];
            assert tps[k] == tps[1..][k - 1];
          }
        }
      } else if ComputedFor(mi, types, inferredReturnType, box, tps[0]).Success? {
        var k :| 0 <= k < |tps[1..]| && ComputedFor(mi, types, inferredReturnType, box, tps[1..][k]).Failure?;
        assert tps[1..][k] == tps[k + 1];
      }
    }
  }

  /** A failure is an index past the lambda's types: some type parameter's first parameter position. */
  lemma ComputedForFails(mi: MethodInfo, types: seq<ParameterizedType>, inferredReturnType: ParameterizedType,
                         box: ParameterizedType -> ParameterizedType, tp: TypeParameter)
    ensures ComputedFor(mi, types, inferredReturnType, box, tp).Failure? <==>
      exists c :: 0 <= c < |mi.parameters| && Refers(mi.parameters[c].parameterizedType, tp) && c >= |types| &&
        forall k :: 0 <= k < c ==> !Refers(mi.parameters[k].parameterizedType, tp)
  {
    var p := FirstPositionFrom(mi.parameters, tp, 0);
    if p.Some? {
      forall c | 0 <= c < |mi.parameters| && Refers(mi.parameters[c].parameterizedType, tp) &&
        forall k :: 0 <= k < c ==> !Refers(mi.parameters[k].parameterizedType, tp)
        ensures c == p.value
      {
      }
    }
  }

  /** typeParametersComputed: the list for the owner's type parameters, empty when it has none. */
  function TypeParametersComputedSpec(mi: MethodInfo, types: seq<ParameterizedType>, inferredReturnType: ParameterizedType,
                                      box: ParameterizedType -> ParameterizedType): Try<seq<ParameterizedType>>
  {
    if mi.ownerTypeParameters == [] then Success([])
    else ComputedAll(mi, types, inferredReturnType, box, mi.ownerTypeParameters)
  }

  /** The type for one type parameter, as `ComputedFor` defines it. */
  method ComputeFor(mi: MethodInfo, types: seq<ParameterizedType>, inferredReturnType: ParameterizedType,
                    box: ParameterizedType -> ParameterizedType, tp: TypeParameter) returns (r: Try<ParameterizedType>)
    ensures r == ComputedFor(mi, types, inferredReturnType, box, tp)
  {
    var c := ParameterPosition(mi.parameters, tp);
    match c {
      case Some(cnt) =>
        if cnt >= |types| {
          return Failure(IndexOutOfBounds);
        }
        r := Success(box(types[cnt]));
      case None =>
        if Refers(mi.returnType, tp) {
          r := Success(box(inferredReturnType));
        } else {
          r := Success(box(TypeVariable(tp, 0, NoWildcard)));
        }
    }
  }

  /** `t` with `prefix` in front of its list. */
  function Prefixed(prefix: seq<ParameterizedType>, t: Try<seq<ParameterizedType>>): Try<seq<ParameterizedType>>
  {
    match t
    case Failure(e) => Failure(e)
    case Success(rest) => Success(prefix + rest)
  }

  lemma PrefixedStep(prefix: seq<ParameterizedType>, pt: ParameterizedType, t: Try<seq<ParameterizedType>>)
    ensures Prefixed(prefix, Prefixed([pt], t)) == Prefixed(prefix + [pt], t)
    ensures Prefixed([], t) == t
  {
    if t.Success? {
      assert prefix + ([pt] + t.value) == prefix + [pt] + t.value;
      assert [] + t.value == t.value;
    }
  }

  method TypeParametersComputed(mi: MethodInfo, types: seq<ParameterizedType>, inferredReturnType: ParameterizedType,
                                box: ParameterizedType -> ParameterizedType) returns (r: Try<seq<ParameterizedType>>)
    ensures r == TypeParametersComputedSpec(mi, types, inferredReturnType, box)
  {
    var tps := mi.ownerTypeParameters;
    if tps == [] {
      return Success([]);
    }
    var result: seq<ParameterizedType> := [];
    var i := 0;
    assert tps[0..] == tps;
    PrefixedStep([], ObjectType, ComputedAll(mi, types, inferredReturnType, box, tps));
    while i < |tps|
      invariant i <= |tps|
      invariant ComputedAll(mi, types, inferredReturnType, box, tps) ==
        Prefixed(result, ComputedAll(mi, types, inferredReturnType, box, tps[i..]))
      decreases |tps| - i
    {
      var entry := ComputeFor(mi, types, inferredReturnType, box, tps[i]);
      assert tps[i..][0] == tps[i] && tps[i..][1..] == tps[i + 1..];
      match entry {
        case Failure(e) =>
          return Failure(e);
        case Success(pt) =>
          PrefixedStep(result, pt, ComputedAll(mi, types, inferredReturnType, box, tps[i + 1..]));
          result := result + [pt];
      }
      i := i + 1;
    }
    assert tps[i..] == [];
    assert result + [] == result;
    return Success(result);
  }

  /** inferFunctionalType: the owner type with the computed type arguments. */
  function InferFunctionalTypeSpec(mt: MethodTypeParameterMap, types: seq<ParameterizedType>,
                                   inferredReturnType: ParameterizedType, box: ParameterizedType -> ParameterizedType)
    : Try<ParameterizedType>
  {
    if mt.methodInfo.None? then Failure(UnsupportedOperation(NOT_A_SAM))
    else
      var mi := mt.methodInfo.value;
      match TypeParametersComputedSpec(mi, types, inferredReturnType, box)
      case Failure(e) => Failure(e)
      case Success(ps) => Success(ClassType(mi.owner, 0, NoWildcard, ps))
  }

  method InferFunctionalType(mt: MethodTypeParameterMap, types: seq<ParameterizedType>,
                             inferredReturnType: ParameterizedType, box: ParameterizedType -> ParameterizedType)
    returns (r: Try<ParameterizedType>)
    ensures r == InferFunctionalTypeSpec(mt, types, inferredReturnType, box)
  {
    if mt.methodInfo.None? {
      return Failure(UnsupportedOperation(NOT_A_SAM));
    }
    var mi := mt.methodInfo.value;
    var ps := TypeParametersComputed(mi, types, inferredReturnType, box);
    match ps {
      case Failure(e) => r := Failure(e);
      case Success(args) => r := Success(ClassType(mi.owner, 0, NoWildcard, args));
    }
  }

  /**
   * `Function<T, R>` with `R apply(T t)`: the lambda's parameter type binds T
   * and the inferred return type binds R.
   */
  lemma FunctionInferred(owner: TypeInfo, t: TypeParameter, rt: TypeParameter, arg: ParameterizedType,
                         ret: ParameterizedType, box: ParameterizedType -> ParameterizedType)
    requires t != rt
    ensures var apply := MethodInfo("java.util.function.Function.apply(T)", owner, [t, rt],
                                    [ParameterInfo(TypeVariable(t, 0, NoWildcard), false)], TypeVariable(rt, 0, NoWildcard));
      InferFunctionalTypeSpec(MethodTypeParameterMap(Some(apply), map[]), [arg], ret, box) ==
        Success(ClassType(owner, 0, NoWildcard, [box(arg), box(ret)]))
  {
    var apply := MethodInfo("java.util.function.Function.apply(T)", owner, [t, rt],
                            [ParameterInfo(TypeVariable(t, 0, NoWildcard), false)], TypeVariable(rt, 0, NoWildcard));
    assert FirstPositionFrom(apply.parameters, t, 0) == Some(0);
    assert FirstPositionFrom(apply.parameters, rt, 1) == None;
    assert FirstPositionFrom(apply.parameters, rt, 0) == None;
    assert ComputedFor(apply, [arg], ret, box, t) == Success(box(arg));
    assert ComputedFor(apply, [arg], ret, box, rt) == Success(box(ret));
    assert [t, rt][1..] == [rt];
    assert [rt][1..] == [];
    assert ComputedAll(apply, [arg], ret, box, []) == Success([]);
    assert [box(ret)] + [] == [box(ret)];
    assert ComputedAll(apply, [arg], ret, box, [rt]) == Success([box(ret)]);
    assert [box(arg)] + [box(ret)] == [box(arg), box(ret)];
    assert ComputedAll(apply, [arg], ret, box, [t, rt]) == Success([box(arg), box(ret)]);
  }

  // ---------------------------------------------------------------------------
  // translateMap, for a formal type without type arguments
  // ---------------------------------------------------------------------------

  predicate NoTypeArguments(pt: ParameterizedType) { !pt.ClassType? || pt.parameters == [] }

  /**
   * The bindings that make the formal type match the concrete one. A formal
   * type variable `T` with array dimensions is bound to the concrete type with
   * as many dimensions fewer; when the concrete type is a functional interface,
   * `samReturnType` is its method's concrete return type, and that is used
   * instead. A formal type that is not a type variable binds nothing.
   */
  function TranslateMap(formalType: ParameterizedType, concreteType: ParameterizedType,
                        samReturnType: Option<ParameterizedType>): (r: Bindings)
    requires NoTypeArguments(formalType)
    ensures formalType.TypeVariable? ==> r.Keys == {OfTypeParameter(formalType.typeParameter)}
    ensures !formalType.TypeVariable? ==> r == map[]
  {
    if formalType.TypeVariable? then
      var key := OfTypeParameter(formalType.typeParameter);
      if formalType.arrays > 0 && samReturnType.Some? then
        map[key := CopyWithFewerArrays(samReturnType.value, formalType.arrays)]
      else if formalType.arrays > 0 && ArraysOf(concreteType) > 0 then
        map[key := CopyWithFewerArrays(concreteType, formalType.arrays)]
      else map[key := concreteType]
    else map[]
  }

  /** Substituting a type for the type variable of `formal`: the formal's array dimensions are added. */
  function Substitute(formal: ParameterizedType, binding: ParameterizedType): ParameterizedType
    requires formal.TypeVariable?
  {
    match binding
    case UnboundWildcard => binding
    case PrimitiveType(p, a, w) => PrimitiveType(p, a + formal.arrays, w)
    case ClassType(t, a, w, ps) => ClassType(t, a + formal.arrays, w, ps)
    case TypeVariable(tp, a, w) => TypeVariable(tp, a + formal.arrays, w)
  }

  /**
   * The binding is right: substituted back into the formal type it gives the
   * concrete type whenever that has at least the formal's array dimensions.
   */
  lemma TranslateMapRoundTrip(formalType: ParameterizedType, concreteType: ParameterizedType)
    requires formalType.TypeVariable? && !concreteType.UnboundWildcard?
    requires formalType.arrays <= ArraysOf(concreteType)
    ensures var r := TranslateMap(formalType, concreteType, None);
      Substitute(formalType, r[OfTypeParameter(formalType.typeParameter)]) == concreteType
  {
  }

  /** With more formal dimensions than concrete ones, the concrete type is bound as it is. */
  lemma TranslateMapTooFewArrays(formalType: ParameterizedType, concreteType: ParameterizedType)
    requires formalType.TypeVariable? && ArraysOf(concreteType) == 0
    ensures TranslateMap(formalType, concreteType, None) == map[OfTypeParameter(formalType.typeParameter) := concreteType]
  {
  }

  // ---------------------------------------------------------------------------
  // combineMaps
  // ---------------------------------------------------------------------------

  /** A value that is a type variable bound in `m1` is replaced by that binding. */
  function Through(m1: Bindings, v: ParameterizedType): ParameterizedType
  {
    if v.TypeVariable? && OfTypeParameter(v.typeParameter) in m1 then m1[OfTypeParameter(v.typeParameter)] else v
  }

  /** `m2` read through `m1`: the keys of `m2`, each value passed through `m1`. */
  function CombineMaps(m1: Bindings, m2: Bindings): (r: Bindings)
    ensures r.Keys == m2.Keys
  {
    map k | k in m2 :: Through(m1, m2[k])
  }

  /** Values other than type variables are never changed. */
  lemma CombineKeepsNonVariables(m1: Bindings, m2: Bindings, k: NamedType)
    requires k in m2 && !m2[k].TypeVariable?
    ensures CombineMaps(m1, m2)[k] == m2[k]
  {
  }

  /** A type variable that `m1` does not bind stays, one that it binds is replaced. */
  lemma CombineVariables(m1: Bindings, m2: Bindings, k: NamedType)
    requires k in m2 && m2[k].TypeVariable?
    ensures var t := OfTypeParameter(m2[k].typeParameter);
      CombineMaps(m1, m2)[k] == (if t in m1 then m1[t] else m2[k])
  {
  }

  /** Through no bindings, nothing changes. */
  lemma CombineWithEmpty(m2: Bindings)
    ensures CombineMaps(map[], m2) == m2
  {
  }

  /** A map none of whose values is a type variable bound in it is closed. */
  ghost predicate Closed(m1: Bindings)
  {
    forall k :: k in m1 ==> Through(m1, m1[k]) == m1[k]
  }

  /** Reading through closed bindings twice is reading through them once. */
  lemma CombineIdempotent(m1: Bindings, m2: Bindings)
    requires Closed(m1)
    ensures CombineMaps(m1, CombineMaps(m1, m2)) == CombineMaps(m1, m2)
  {
    var once := CombineMaps(m1, m2);
    forall k | k in once ensures Through(m1, once[k]) == once[k] {
      var v := m2[k];
      if v.TypeVariable? && OfTypeParameter(v.typeParameter) in m1 {
        assert once[k] == m1[OfTypeParameter(v.typeParameter)];
      }
    }
  }

  /**
   * `StringMap<V> extends HashMap<String, V>`: `K` of `Map` is `K` of
   * `HashMap`, which is `String`; so `K` of `Map` becomes `String`.
   */
  lemma CombineExample(kMap: TypeParameter, kHashMap: TypeParameter, stringType: ParameterizedType)
    requires kMap != kHashMap
    ensures var m2 := map[OfTypeParameter(kMap) := TypeVariable(kHashMap, 0, NoWildcard)];
      var m1 := map[OfTypeParameter(kHashMap) := stringType];
      CombineMaps(m1, m2) == map[OfTypeParameter(kMap) := stringType]
  {
    var m2 := map[OfTypeParameter(kMap) := TypeVariable(kHashMap, 0, NoWildcard)];
    var m1 := map[OfTypeParameter(kHashMap) := stringType];
    assert CombineMaps(m1, m2)[OfTypeParameter(kMap)] == stringType;
  }
}
