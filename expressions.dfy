/**
 * The expressions the bytecode front end builds: constants, array
 * initializers, type expressions, the empty expression, and annotation
 * expressions with their key-value pairs.
 */
module Expressions {
  import opened JavaTypes

  /**
   * A constant, an array initializer with its common element type, a type
   * expression, or the empty expression (a value that has no translation).
   * Floating-point constants carry their bit pattern, uninterpreted.
   */
  datatype Expression =
    | NullConstant
    | StringConstant(s: string)
    | IntConstant(i: int)
    | ShortConstant(i: int)
    | LongConstant(i: int)
    | ByteConstant(i: int)
    | DoubleConstant(bits: int)
    | FloatConstant(bits: int)
    | CharConstant(c: char)
    | BooleanConstant(b: bool)
    | ArrayInitializer(commonType: ParameterizedType, expressions: seq<Expression>)
    | TypeExpression(parameterizedType: ParameterizedType)
    | EmptyExpression

  datatype KeyValuePair = KeyValuePair(key: string, value: Expression)

  /** An annotation: the fully qualified name of its type and its key-value pairs, in order. */
  datatype AnnotationExpression = AnnotationExpression(typeFqn: string, keyValuePairs: seq<KeyValuePair>)

  /** The primitive type itself: no array dimensions, no wildcard. */
  function TypeOf(p: Primitive): ParameterizedType
  {
    PrimitiveType(p, 0, NoWildcard)
  }

  /** The type of a loaded class, without type arguments. */
  function ClassOf(fqn: string): ParameterizedType
  {
    ClassType(Loaded(fqn), 0, NoWildcard, [])
  }
}
