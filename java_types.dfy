/**
 * The type vocabulary shared by the bytecode and the source front ends:
 * primitive types, type parameters, type infos and parameterized types.
 */
module JavaTypes {
  import opened JavaLang

  datatype Primitive = Byte | Char | Double | Float | Int | Long | Short | Void | Boolean

  /** `? extends` and `? super`, or neither. */
  datatype Wildcard = NoWildcard | Extends | Super

  /** A formal type parameter: its position, its name and the fully qualified name of its owner. */
  datatype TypeParameter = TypeParameter(index: nat, name: string, owner: string)

  /**
   * A type known to the type map by its fully qualified name, or a stub
   * created for a type that could not be loaded.
   */
  datatype TypeInfo = Loaded(fqn: string) | Stub(packageName: string, simpleName: string)

  function FullyQualifiedName(t: TypeInfo): string
  {
    match t
    case Loaded(fqn) => fqn
    case Stub(p, s) => if p == "" then s else p + "." + s
  }

  predicate IsJavaLangObject(t: TypeInfo) { FullyQualifiedName(t) == "java.lang.Object" }

  /**
   * A parameterized type: the unbounded wildcard `?`, a primitive, a class or
   * interface type with its type arguments, or a type variable; all but the
   * first carry an array depth and a wildcard marker.
   */
  datatype ParameterizedType =
    | UnboundWildcard
    | PrimitiveType(primitive: Primitive, arrays: nat, wildcard: Wildcard)
    | ClassType(typeInfo: TypeInfo, arrays: nat, wildcard: Wildcard, parameters: seq<ParameterizedType>)
    | TypeVariable(typeParameter: TypeParameter, arrays: nat, wildcard: Wildcard)

  const ObjectType: ParameterizedType := ClassType(Loaded("java.lang.Object"), 0, NoWildcard, [])

  function ArraysOf(pt: ParameterizedType): nat
  {
    if pt.UnboundWildcard? then 0 else pt.arrays
  }

  function WildcardOf(pt: ParameterizedType): Wildcard
  {
    if pt.UnboundWildcard? then NoWildcard else pt.wildcard
  }

  /** The same type with `n` fewer array dimensions (never below zero). */
  function CopyWithFewerArrays(pt: ParameterizedType, n: nat): (r: ParameterizedType)
    ensures ArraysOf(r) == (if ArraysOf(pt) >= n then ArraysOf(pt) - n else 0)
  {
    match pt
    case UnboundWildcard => pt
    case PrimitiveType(p, a, w) => PrimitiveType(p, if a >= n then a - n else 0, w)
    case ClassType(t, a, w, ps) => ClassType(t, if a >= n then a - n else 0, w, ps)
    case TypeVariable(tp, a, w) => TypeVariable(tp, if a >= n then a - n else 0, w)
  }
}
