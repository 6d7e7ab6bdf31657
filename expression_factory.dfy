/**
 * ExpressionFactory: the translation of a constant value found in a class
 * file (a field's ConstantValue, an annotation element value) into an
 * expression. Each boxed scalar becomes the constant of the same kind; the
 * int, long, double, char and Object arrays become array initializers with
 * the matching common type; an ASM type becomes a type expression; every
 * other value becomes the empty expression.
 */
module ExpressionFactory {
  import opened JavaLang
  import opened JavaTypes
  import opened Expressions

  /**
   * The values ASM hands over. Floating-point values carry their bit
   * pattern; `OtherValue` stands for everything the factory has no case for
   * (byte[], short[], float[], boolean[], enum entries, ...).
   */
  datatype Value =
    | NullValue
    | StringValue(s: string)
    | IntegerValue(i: int)
    | ShortValue(i: int)
    | LongValue(i: int)
    | ByteValue(i: int)
    | DoubleValue(bits: int)
    | FloatValue(bits: int)
    | CharacterValue(c: char)
    | BooleanValue(b: bool)
    | IntArray(ints: seq<int>)
    | LongArray(longs: seq<int>)
    | DoubleArray(doubles: seq<int>)
    | CharArray(chars: seq<char>)
    | ObjectArray(elements: seq<Value>)
    | AsmType(className: string)
    | OtherValue(kind: string)

  /** The Java name of each primitive type, as Type.getClassName spells it. */
  function PrimitiveName(p: Primitive): string
  {
    match p
    case Boolean => "boolean" case Byte => "byte" case Char => "char" case Double => "double"
    case Float => "float" case Int => "int" case Long => "long" case Short => "short" case Void => "void"
  }

  /** The primitive type a class name stands for, if any. */
  function PrimitiveNamed(name: string): (r: Option<Primitive>)
    ensures r.Some? ==> PrimitiveName(r.value) == name
    ensures forall p :: PrimitiveName(p) == name ==> r == Some(p)
  {
    match name
    case "boolean" => Some(Boolean) case "byte" => Some(Byte) case "char" => Some(Char)
    case "double" => Some(Double) case "float" => Some(Float) case "int" => Some(Int)
    case "long" => Some(Long) case "short" => Some(Short) case "void" => Some(Void)
    case _ => None
  }

  /**
   * parseTypeExpression: a primitive name gives that primitive type; any
   * other name is looked up in the type map and throws when it cannot be
   * loaded.
   */
  function ParseTypeExpression(loadable: set<string>, className: string): (r: Try<Expression>)
    ensures r.Failure? <==> PrimitiveNamed(className).None? && className !in loadable
    ensures r.Success? ==> r.value.TypeExpression?
  {
    match PrimitiveNamed(className)
    case Some(p) => Success(TypeExpression(TypeOf(p)))
    case None =>
      if className in loadable then Success(TypeExpression(ClassOf(className)))
      else Failure(UnsupportedOperation("Cannot load type " + className))
  }

  /** The char constants of parseCharArray, in order. */
  function CharConstants(chars: seq<char>): seq<Expression>
  {
    seq(|chars|, k requires 0 <= k < |chars| => CharConstant(chars[k]))
  }

  /** from: the switch over the value's runtime class. */
  function From(loadable: set<string>, value: Value): (r: Try<Expression>)
    decreases value, 1
  {
    match value
    case NullValue => Success(NullConstant)
    case StringValue(s) => Success(StringConstant(s))
    case IntArray(ints) =>
      Success(ArrayInitializer(TypeOf(Int), seq(|ints|, k requires 0 <= k < |ints| => IntConstant(ints[k]))))
    case IntegerValue(i) => Success(IntConstant(i))
    case ShortValue(i) => Success(ShortConstant(i))
    case LongArray(longs) =>
      Success(ArrayInitializer(TypeOf(Long), seq(|longs|, k requires 0 <= k < |longs| => LongConstant(longs[k]))))
    case LongValue(i) => Success(LongConstant(i))
    case ByteValue(i) => Success(ByteConstant(i))
    case DoubleArray(ds) =>
      Success(ArrayInitializer(TypeOf(Double), seq(|ds|, k requires 0 <= k < |ds| => DoubleConstant(ds[k]))))
    case DoubleValue(bits) => Success(DoubleConstant(bits))
    case FloatValue(bits) => Success(FloatConstant(bits))
    case CharArray(chars) => Success(ArrayInitializer(TypeOf(Char), CharConstants(chars)))
    case CharacterValue(c) => Success(CharConstant(c))
    case BooleanValue(b) => Success(BooleanConstant(b))
    case ObjectArray(vs) =>
      (match FromAll(loadable, vs)
       case Success(es) => Success(ArrayInitializer(ObjectType, es))
       case Failure(x) => Failure(x))
    case AsmType(n) => ParseTypeExpression(loadable, n)
    case OtherValue(_) => Success(EmptyExpression)
  }

  /** The elements of an Object array, translated in order; the first that throws ends the stream. */
  function FromAll(loadable: set<string>, vs: seq<Value>): (r: Try<seq<Expression>>)
    ensures r.Success? ==> |r.value| == |vs|
    decreases vs, 0
  {
    if vs == [] then Success([])
    else
      match From(loadable, vs[0])
      case Failure(x) => Failure(x)
      case Success(e) =>
        match FromAll(loadable, vs[1..])
        case Failure(x) => Failure(x)
        case Success(es) => Success([e] + es)
  }

  /** parseCharArray: one char constant per element, in order, under the common type char. */
  method ParseCharArray(chars: seq<char>) returns (e: Expression)
    ensures e.ArrayInitializer? && e.commonType == TypeOf(Char)
    ensures |e.expressions| == |chars|
    ensures forall k :: 0 <= k < |chars| ==> e.expressions[k] == CharConstant(chars[k])
  {
    var expressions: seq<Expression> := [];
    var i := 0;
    while i < |chars|
      invariant 0 <= i <= |chars| && |expressions| == i
      invariant forall k :: 0 <= k < i ==> expressions[k] == CharConstant(chars[k])
    {
      expressions := expressions + [CharConstant(chars[i])];
      i := i + 1;
    }
    e := ArrayInitializer(TypeOf(Char), expressions);
  }

  // ---------------------------------------------------------------------------
  // the value an expression stands for

  /** Every part of the value has a case in the factory. */
  predicate Supported(v: Value)
  {
    match v
    case OtherValue(_) => false
    case ObjectArray(vs) => forall k :: 0 <= k < |vs| ==> Supported(vs[k])
    case _ => true
  }

  /** Some part of the value is a class type the type map cannot load. */
  predicate MissingType(loadable: set<string>, v: Value)
  {
    match v
    case AsmType(n) => PrimitiveNamed(n).None? && n !in loadable
    case ObjectArray(vs) => exists k :: 0 <= k < |vs| && MissingType(loadable, vs[k])
    case _ => false
  }

  /**
   * The value a constant, an array initializer of constants or a type
   * expression stands for; None for the empty expression and for anything
   * the factory does not produce.
   */
  function ValueOf(e: Expression): Option<Value>
    decreases e, 1
  {
    match e
    case NullConstant => Some(NullValue)
    case StringConstant(s) => Some(StringValue(s))
    case IntConstant(i) => Some(IntegerValue(i))
    case ShortConstant(i) => Some(ShortValue(i))
    case LongConstant(i) => Some(LongValue(i))
    case ByteConstant(i) => Some(ByteValue(i))
    case DoubleConstant(bits) => Some(DoubleValue(bits))
    case FloatConstant(bits) => Some(FloatValue(bits))
    case CharConstant(c) => Some(CharacterValue(c))
    case BooleanConstant(b) => Some(BooleanValue(b))
    case ArrayInitializer(t, es) =>
      if t == TypeOf(Int) && forall k :: 0 <= k < |es| ==> es[k].IntConstant? then
        Some(IntArray(seq(|es|, k requires 0 <= k < |es| => es[k].i)))
      else if t == TypeOf(Long) && forall k :: 0 <= k < |es| ==> es[k].LongConstant? then
        Some(LongArray(seq(|es|, k requires 0 <= k < |es| => es[k].i)))
      else if t == TypeOf(Double) && forall k :: 0 <= k < |es| ==> es[k].DoubleConstant? then
        Some(DoubleArray(seq(|es|, k requires 0 <= k < |es| => es[k].bits)))
      else if t == TypeOf(Char) && forall k :: 0 <= k < |es| ==> es[k].CharConstant? then
        Some(CharArray(seq(|es|, k requires 0 <= k < |es| => es[k].c)))
      else if t == ObjectType then
        (match ValuesOf(es) case Some(vs) => Some(ObjectArray(vs)) case None => None)
      else None
    case TypeExpression(pt) =>
      if pt.PrimitiveType? && pt == TypeOf(pt.primitive) then Some(AsmType(PrimitiveName(pt.primitive)))
      else if pt.ClassType? && pt.typeInfo.Loaded? && pt == ClassOf(pt.typeInfo.fqn) then Some(AsmType(pt.typeInfo.fqn))
      else None
    case EmptyExpression => None
  }

  function ValuesOf(es: seq<Expression>): (r: Option<seq<Value>>)
    ensures r.Some? ==> |r.value| == |es|
    decreases es, 0
  {
    if es == [] then Some([])
    else
      match ValueOf(es[0])
      case None => None
      case Some(v) =>
        match ValuesOf(es[1..])
        case None => None
        case Some(vs) => Some([v] + vs)
  }

  // ---------------------------------------------------------------------------
  // properties

  /** The factory throws exactly when some class type in the value cannot be loaded. */
  lemma {:induction false} ThrowsExactlyOnMissingType(loadable: set<string>, v: Value)
    ensures From(loadable, v).Failure? <==> MissingType(loadable, v)
    decreases v, 1
  {
    match v
    case ObjectArray(vs) => AllThrowExactlyOnMissingType(loadable, vs);
    case _ =>
  }

  lemma {:induction false} AllThrowExactlyOnMissingType(loadable: set<string>, vs: seq<Value>)
    ensures FromAll(loadable, vs).Failure? <==> exists k :: 0 <= k < |vs| && MissingType(loadable, vs[k])
    decreases vs, 0
  {
    if vs != [] {
      ThrowsExactlyOnMissingType(loadable, vs[0]);
      AllThrowExactlyOnMissingType(loadable, vs[1..]);
      assert forall k :: 0 <= k < |vs| - 1 ==> vs[1..][k] == vs[k + 1];
      if MissingType(loadable, vs[0]) {
        assert 0 < |vs| && MissingType(loadable, vs[0]);
      } else if exists k :: 0 <= k < |vs| && MissingType(loadable, vs[k]) {
        var k :| 0 <= k < |vs| && MissingType(loadable, vs[k]);
        assert k > 0 && MissingType(loadable, vs[1..][k - 1]);
      }
    }
  }

  /**
   * The translation loses nothing on the values the factory has a case for:
   * the expression stands for exactly the value it was made from (so arrays
   * keep their length, their order and their element kind), and it stands
   * for no value at all once some part had no case.
   */
  lemma {:induction false} TranslationIsFaithful(loadable: set<string>, v: Value)
    requires From(loadable, v).Success?
    ensures Supported(v) ==> ValueOf(From(loadable, v).value) == Some(v)
    ensures !Supported(v) ==> ValueOf(From(loadable, v).value) == None
    decreases v, 1
  {
    match v
    case IntArray(ints) => IntArrayFaithful(loadable, ints);
    case LongArray(longs) => LongArrayFaithful(loadable, longs);
    case DoubleArray(ds) => DoubleArrayFaithful(loadable, ds);
    case CharArray(chars) => CharArrayFaithful(loadable, chars);
    case ObjectArray(vs) => AllTranslationsFaithful(loadable, vs);
    case AsmType(n) => AsmTypeFaithful(loadable, n);
    case _ =>
  }

  lemma AsmTypeFaithful(loadable: set<string>, n: string)
    requires From(loadable, AsmType(n)).Success?
    ensures ValueOf(From(loadable, AsmType(n)).value) == Some(AsmType(n))
  {
  }

  lemma IntArrayFaithful(loadable: set<string>, ints: seq<int>)
    ensures From(loadable, IntArray(ints)).Success? && ValueOf(From(loadable, IntArray(ints)).value) == Some(IntArray(ints))
  {
    var e := From(loadable, IntArray(ints)).value;
    assert seq(|e.expressions|, k requires 0 <= k < |e.expressions| => e.expressions[k].i) == ints;
  }

  lemma LongArrayFaithful(loadable: set<string>, longs: seq<int>)
    ensures From(loadable, LongArray(longs)).Success? && ValueOf(From(loadable, LongArray(longs)).value) == Some(LongArray(longs))
  {
    var e := From(loadable, LongArray(longs)).value;
    assert seq(|e.expressions|, k requires 0 <= k < |e.expressions| => e.expressions[k].i) == longs;
  }

  lemma DoubleArrayFaithful(loadable: set<string>, ds: seq<int>)
    ensures From(loadable, DoubleArray(ds)).Success? && ValueOf(From(loadable, DoubleArray(ds)).value) == Some(DoubleArray(ds))
  {
    var e := From(loadable, DoubleArray(ds)).value;
    assert seq(|e.expressions|, k requires 0 <= k < |e.expressions| => e.expressions[k].bits) == ds;
  }

  lemma CharArrayFaithful(loadable: set<string>, chars: seq<char>)
    ensures From(loadable, CharArray(chars)).Success? && ValueOf(From(loadable, CharArray(chars)).value) == Some(CharArray(chars))
  {
    var e := From(loadable, CharArray(chars)).value;
    assert seq(|e.expressions|, k requires 0 <= k < |e.expressions| => e.expressions[k].c) == chars;
  }

  lemma {:induction false} AllTranslationsFaithful(loadable: set<string>, vs: seq<Value>)
    requires FromAll(loadable, vs).Success?
    ensures (forall k :: 0 <= k < |vs| ==> Supported(vs[k])) ==> ValuesOf(FromAll(loadable, vs).value) == Some(vs)
    ensures !(forall k :: 0 <= k < |vs| ==> Supported(vs[k])) ==> ValuesOf(FromAll(loadable, vs).value) == None
    decreases vs, 0
  {
    if vs != [] {
      var es := FromAll(loadable, vs).value;
      TranslationIsFaithful(loadable, vs[0]);
      AllTranslationsFaithful(loadable, vs[1..]);
      assert es[0] == From(loadable, vs[0]).value;
      assert es[1..] == FromAll(loadable, vs[1..]).value;
      assert forall k :: 0 <= k < |vs| - 1 ==> vs[1..][k] == vs[k + 1];
      assert [vs[0]] + vs[1..] == vs;
      if !Supported(vs[0]) {
      } else if !(forall k :: 0 <= k < |vs| ==> Supported(vs[k])) {
        var k :| 0 <= k < |vs| && !Supported(vs[k]);
        assert !Supported(vs[1..][k - 1]);
      }
    }
  }
}
