/**
 * MyClassVisitor: the class-file visitor that turns ASM's callbacks into a
 * type's builder state. It decodes the access flags of the class, of each
 * field and of each method (tables 4.1-B, 4.5-A and 4.6-A of the Java
 * Virtual Machine Specification; ACC_RECORD is an ASM pseudo-flag), decides
 * which members are skipped, and builds the member descriptions handed on to
 * the field and method visitors.
 */
module MyClassVisitor {
  import opened JavaLang
  import opened JavaTypes
  import opened Expressions
  import opened ExpressionFactory
  import opened JetBrainsAnnotationTranslator

  /** An access-flag word, as the Java `int` ASM passes. */
  type Access = bv32

  const ACC_PUBLIC: Access := 0x0001
  const ACC_PRIVATE: Access := 0x0002
  const ACC_PROTECTED: Access := 0x0004
  const ACC_STATIC: Access := 0x0008
  const ACC_FINAL: Access := 0x0010
  const ACC_VOLATILE: Access := 0x0040
  const ACC_VARARGS: Access := 0x0080
  const ACC_INTERFACE: Access := 0x0200
  const ACC_ABSTRACT: Access := 0x0400
  const ACC_SYNTHETIC: Access := 0x1000
  const ACC_ANNOTATION: Access := 0x2000
  const ACC_ENUM: Access := 0x4000
  const ACC_RECORD: Access := 0x1_0000

  /** `(access & flag) != 0` */
  predicate Has(access: Access, flag: Access) { access & flag != 0 }

  datatype TypeNature = Annotation | Enum | Interface | Record | Class

  datatype Modifier = Public | Private | Protected | Static | Final | Abstract | Volatile

  datatype MethodType = Constructor | StaticMethod | AbstractMethod | DefaultMethod | PlainMethod

  // ---------------------------------------------------------------------------
  // type nature

  /** typeNatureFromOpCode: annotation, then enum, then interface, then record; class otherwise. */
  function TypeNatureFromOpCode(access: Access): TypeNature
  {
    if Has(access, ACC_ANNOTATION) then Annotation
    else if Has(access, ACC_ENUM) then Enum
    else if Has(access, ACC_INTERFACE) then Interface
    else if Has(access, ACC_RECORD) then Record
    else Class
  }

  /** The flag that announces each nature; a class has none. */
  function NatureFlag(n: TypeNature): Access
  {
    match n
    case Annotation => ACC_ANNOTATION case Enum => ACC_ENUM case Interface => ACC_INTERFACE
    case Record => ACC_RECORD case Class => 0
  }

  /** The order in which the natures are tried. */
  function NatureRank(n: TypeNature): nat
  {
    match n
    case Annotation => 0 case Enum => 1 case Interface => 2 case Record => 3 case Class => 4
  }

  /**
   * Precedence: the decoded nature is the first one, in the order annotation,
   * enum, interface, record, whose flag is set, and class when none is.
   */
  lemma NaturePrecedence(access: Access, n: TypeNature)
    ensures TypeNatureFromOpCode(access) == n <==>
      (n == Class || Has(access, NatureFlag(n))) &&
      forall m :: NatureRank(m) < NatureRank(n) ==> !Has(access, NatureFlag(m))
  {
    var d := TypeNatureFromOpCode(access);
    NatureDecoded(access);
    if d != n && NatureRank(n) < NatureRank(d) {
      assert n != Class && !Has(access, NatureFlag(n));
    } else if d != n {
      assert NatureRank(d) != NatureRank(n) by { RankDistinct(d, n); }
    }
  }

  /** The decoded nature has its flag set (or is class), and no nature tried before it does. */
  lemma NatureDecoded(access: Access)
    ensures var d := TypeNatureFromOpCode(access);
      (d == Class || Has(access, NatureFlag(d))) &&
      forall m :: NatureRank(m) < NatureRank(d) ==> !Has(access, NatureFlag(m))
  {
    var d := TypeNatureFromOpCode(access);
    forall m | NatureRank(m) < NatureRank(d) ensures !Has(access, NatureFlag(m)) {
      match m
      case Annotation => case Enum => case Interface => case Record => case Class =>
    }
  }

  lemma RankDistinct(a: TypeNature, b: TypeNature)
    requires a != b
    ensures NatureRank(a) != NatureRank(b)
  {
  }

  /** The nature flags javac writes for each kind of type. */
  function NatureBits(n: TypeNature): Access
  {
    match n
    case Annotation => ACC_ANNOTATION | ACC_INTERFACE | ACC_ABSTRACT
    case Enum => ACC_ENUM
    case Interface => ACC_INTERFACE | ACC_ABSTRACT
    case Record => ACC_RECORD
    case Class => 0
  }

  const NATURE_MASK: Access := ACC_ANNOTATION | ACC_ENUM | ACC_INTERFACE | ACC_RECORD

  /** Decoding the flags written for a nature gives that nature back, whatever the other bits. */
  lemma NatureRoundTrip(n: TypeNature, other: Access)
    requires other & NATURE_MASK == 0
    ensures TypeNatureFromOpCode(NatureBits(n) | other) == n
  {
  }

  /** TypeNature.isInterface: annotation types are interfaces too. */
  predicate IsInterface(n: TypeNature) { n == Interface || n == Annotation }

  /**
   * Table 4.1-B of the JVM specification: ACC_ANNOTATION needs ACC_INTERFACE,
   * and an interface is neither an enum nor final.
   */
  predicate LegalClassFlags(access: Access)
  {
    (Has(access, ACC_ANNOTATION) ==> Has(access, ACC_INTERFACE)) &&
    (Has(access, ACC_INTERFACE) ==> !Has(access, ACC_ENUM) && !Has(access, ACC_FINAL))
  }

  /** On legal flags the decoded nature is an interface exactly when ACC_INTERFACE is set. */
  lemma InterfaceExactlyWhenFlagged(access: Access)
    requires LegalClassFlags(access)
    ensures IsInterface(TypeNatureFromOpCode(access)) <==> Has(access, ACC_INTERFACE)
  {
  }

  // ---------------------------------------------------------------------------
  // modifiers

  /** `{m}` when `b` holds, the empty set otherwise. */
  function When(b: bool, m: Modifier): set<Modifier>
  {
    if b then {m} else {}
  }

  /** checkTypeFlags: static, private, protected and public, each added when its bit is set. */
  function AccessModifiers(access: Access): (r: set<Modifier>)
    ensures (Static in r) == Has(access, ACC_STATIC) && (Private in r) == Has(access, ACC_PRIVATE)
    ensures (Protected in r) == Has(access, ACC_PROTECTED) && (Public in r) == Has(access, ACC_PUBLIC)
    ensures Final !in r && Abstract !in r && Volatile !in r
  {
    When(Has(access, ACC_STATIC), Static) + When(Has(access, ACC_PRIVATE), Private) +
    When(Has(access, ACC_PROTECTED), Protected) + When(Has(access, ACC_PUBLIC), Public)
  }

  /** The modifiers visit gives the type: those of checkTypeFlags, and abstract and final for a class. */
  function TypeModifiers(access: Access): set<Modifier>
  {
    AccessModifiers(access) + ClassModifiers(access, TypeNatureFromOpCode(access))
  }

  /** Abstract and final, each when its bit is set, and only on a class. */
  function ClassModifiers(access: Access, nature: TypeNature): set<Modifier>
  {
    if nature == Class then When(Has(access, ACC_ABSTRACT), Abstract) + When(Has(access, ACC_FINAL), Final) else {}
  }

  /**
   * Each type modifier is present exactly when its bit is set, abstract and
   * final moreover only on a class.
   */
  lemma TypeModifierRules(access: Access)
    ensures var r := TypeModifiers(access);
      (Static in r) == Has(access, ACC_STATIC) && (Private in r) == Has(access, ACC_PRIVATE) &&
      (Protected in r) == Has(access, ACC_PROTECTED) && (Public in r) == Has(access, ACC_PUBLIC) &&
      (Abstract in r) == (Has(access, ACC_ABSTRACT) && TypeNatureFromOpCode(access) == Class) &&
      (Final in r) == (Has(access, ACC_FINAL) && TypeNatureFromOpCode(access) == Class) &&
      Volatile !in r
  {
  }

  /** visitField: static, public, private, protected, final and volatile, each when its bit is set. */
  function FieldModifiers(access: Access): (r: set<Modifier>)
    ensures (Static in r) == Has(access, ACC_STATIC) && (Public in r) == Has(access, ACC_PUBLIC)
    ensures (Private in r) == Has(access, ACC_PRIVATE) && (Protected in r) == Has(access, ACC_PROTECTED)
    ensures (Final in r) == Has(access, ACC_FINAL) && (Volatile in r) == Has(access, ACC_VOLATILE)
    ensures Abstract !in r
  {
    When(Has(access, ACC_STATIC), Static) + When(Has(access, ACC_PUBLIC), Public) +
    When(Has(access, ACC_PRIVATE), Private) + When(Has(access, ACC_PROTECTED), Protected) +
    When(Has(access, ACC_FINAL), Final) + When(Has(access, ACC_VOLATILE), Volatile)
  }

  /**
   * visitMethod: public (never in an interface), private, protected and
   * final, each when its bit is set.
   */
  function MethodModifiers(access: Access, inInterface: bool): (r: set<Modifier>)
    ensures (Public in r) == (Has(access, ACC_PUBLIC) && !inInterface)
    ensures (Private in r) == Has(access, ACC_PRIVATE) && (Protected in r) == Has(access, ACC_PROTECTED)
    ensures (Final in r) == Has(access, ACC_FINAL)
    ensures Static !in r && Abstract !in r && Volatile !in r
  {
    When(Has(access, ACC_PUBLIC) && !inInterface, Public) + When(Has(access, ACC_PRIVATE), Private) +
    When(Has(access, ACC_PROTECTED), Protected) + When(Has(access, ACC_FINAL), Final)
  }

  // ---------------------------------------------------------------------------
  // method kind and method signature

  /** extractMethodType: static, then abstract, then default inside an interface, else a plain method. */
  function ExtractMethodType(access: Access, inInterface: bool): MethodType
  {
    if Has(access, ACC_STATIC) then StaticMethod
    else if Has(access, ACC_ABSTRACT) then AbstractMethod
    else if inInterface then DefaultMethod
    else PlainMethod
  }

  /** The method kind of a member, constructors included. */
  function MethodTypeOf(name: string, access: Access, inInterface: bool): MethodType
  {
    if name == "<init>" then Constructor else ExtractMethodType(access, inInterface)
  }

  /** The condition under which each kind of non-constructor method applies, on its own. */
  predicate KindApplies(k: MethodType, access: Access, inInterface: bool)
  {
    match k
    case Constructor => false
    case StaticMethod => Has(access, ACC_STATIC)
    case AbstractMethod => Has(access, ACC_ABSTRACT)
    case DefaultMethod => inInterface
    case PlainMethod => true
  }

  function KindRank(k: MethodType): nat
  {
    match k
    case Constructor => 0 case StaticMethod => 1 case AbstractMethod => 2 case DefaultMethod => 3 case PlainMethod => 4
  }

  /**
   * `<init>` is the constructor; any other method gets the first kind, in the
   * order static, abstract, default, plain, whose condition holds.
   */
  lemma MethodTypePrecedence(name: string, access: Access, inInterface: bool, k: MethodType)
    ensures MethodTypeOf(name, access, inInterface) == k <==>
      if name == "<init>" then k == Constructor
      else (KindApplies(k, access, inInterface) &&
            forall j :: KindRank(j) < KindRank(k) ==> !KindApplies(j, access, inInterface))
  {
    var d := MethodTypeOf(name, access, inInterface);
    if name != "<init>" && d != k && KindApplies(k, access, inInterface) {
      assert KindRank(d) < KindRank(k) && KindApplies(d, access, inInterface);
    }
    if name != "<init>" && d == k {
      forall j | KindRank(j) < KindRank(k) ensures !KindApplies(j, access, inInterface) {
        match j
        case Constructor => case StaticMethod => case AbstractMethod => case DefaultMethod => case PlainMethod =>
      }
    }
  }

  /** TypeInfo.simpleName: the last dot-separated segment of the fully qualified name. */
  function SimpleName(fqn: string): string
  {
    fqn[LastIndexOf(fqn, '.') + 1..]
  }

  /**
   * makeMethodSignature: the method name (the type's simple name for a
   * constructor), then the parameters' detailed strings joined by ", "
   * inside parentheses.
   */
  function MakeMethodSignature(name: string, simpleName: string, parameters: seq<string>): string
  {
    (if name == "<init>" then simpleName else name) + "(" + Join(parameters, ", ") + ")"
  }

  /**
   * A constructor is looked up under the signature of a method named after
   * its type, and the text before the first '(' of any signature is the name
   * it is looked up under.
   */
  lemma MethodSignatureName(name: string, simpleName: string, parameters: seq<string>)
    requires '(' !in name && '(' !in simpleName
    ensures MakeMethodSignature("<init>", simpleName, parameters) == MakeMethodSignature(simpleName, simpleName, parameters)
    ensures var s := MakeMethodSignature(name, simpleName, parameters);
      var n := if name == "<init>" then simpleName else name;
      IndexOf(s, '(', 0) == |n| && s[..|n|] == n && s[|s| - 1] == ')'
  {
    var n := if name == "<init>" then simpleName else name;
    var s := MakeMethodSignature(name, simpleName, parameters);
    assert s[|n|] == '(' && s[..|n|] == n;
    IndexOfFirst(s, '(', 0);
  }

  // ---------------------------------------------------------------------------
  // field initializers

  /**
   * The initializer visitField sets, as the code is written: the
   * translation of the constant is kept only when it is the empty
   * expression, so no translatable constant ever becomes an initializer.
   */
  function InitializerAsWritten(loadable: set<string>, value: Option<Value>): Try<Option<Expression>>
  {
    match value
    case None => Success(None)
    case Some(v) =>
      match From(loadable, v)
      case Failure(x) => Failure(x)
      case Success(e) => Success(if e.EmptyExpression? then Some(e) else None)
  }

  /** The initializer with the test the other way round: a non-empty translation is kept. */
  function Initializer(loadable: set<string>, value: Option<Value>): Try<Option<Expression>>
  {
    match value
    case None => Success(None)
    case Some(v) =>
      match From(loadable, v)
      case Failure(x) => Failure(x)
      case Success(e) => Success(if e.EmptyExpression? then None else Some(e))
  }

  /** As written, even `static final int X = 3` gets no initializer, and nothing but the empty expression is ever set. */
  lemma InitializerAsWrittenDropsConstants(loadable: set<string>, value: Option<Value>)
    ensures InitializerAsWritten(loadable, Some(IntegerValue(3))) == Success(None)
    ensures var r := InitializerAsWritten(loadable, value); r.Success? && r.value.Some? ==> r.value.value == EmptyExpression
  {
  }

  /** Corrected, a field's constant value becomes an initializer that stands for exactly that value. */
  lemma InitializerIsTheConstant(loadable: set<string>, v: Value)
    requires Supported(v) && !MissingType(loadable, v)
    ensures var r := Initializer(loadable, Some(v));
      r.Success? && r.value.Some? && ValueOf(r.value.value) == Some(v)
  {
    ThrowsExactlyOnMissingType(loadable, v);
    TranslationIsFaithful(loadable, v);
  }

  /** The translation of the store's annotations for an item; none when the store has no entry for it. */
  function StoredAnnotations(item: Option<seq<StoreAnnotation>>): seq<AnnotationExpression>
  {
    if item.Some? then AllTranslated(item.value, OtherBuilder) else []
  }

  /** The store's annotations for an item, mapped onto a builder that has none yet. */
  method TranslateStored(item: Option<seq<StoreAnnotation>>) returns (r: seq<AnnotationExpression>)
    ensures r == StoredAnnotations(item)
  {
    r := [];
    if item.Some? && |item.value| > 0 {
      r := MapAnnotations(item.value, OtherBuilder, r);
    }
  }

  /** The detailed strings of the parameter types, in order. */
  function DetailedStrings(ts: seq<ParameterizedType>, detailedString: ParameterizedType -> string): (r: seq<string>)
    ensures |r| == |ts| && forall k :: 0 <= k < |ts| ==> r[k] == detailedString(ts[k])
  {
    seq(|ts|, k requires 0 <= k < |ts| => detailedString(ts[k]))
  }

  /** The store's entry for a method, looked up by its signature. */
  function StoreEntry(methodItems: Option<map<string, MethodItem>>, signature: string): (r: Option<MethodItem>)
    ensures r.Some? <==> methodItems.Some? && signature in methodItems.value
    ensures r.Some? ==> r.value == methodItems.value[signature]
  {
    if methodItems.Some? && signature in methodItems.value then Some(methodItems.value[signature]) else None
  }

  /** The modifiers visitField builds, one bit at a time. */
  method BuildFieldModifiers(access: Access) returns (modifiers: set<Modifier>)
    ensures modifiers == FieldModifiers(access)
  {
    modifiers := {};
    modifiers := modifiers + When(Has(access, ACC_STATIC), Static);
    modifiers := modifiers + When(Has(access, ACC_PUBLIC), Public);
    modifiers := modifiers + When(Has(access, ACC_PRIVATE), Private);
    modifiers := modifiers + When(Has(access, ACC_PROTECTED), Protected);
    modifiers := modifiers + When(Has(access, ACC_FINAL), Final);
    modifiers := modifiers + When(Has(access, ACC_VOLATILE), Volatile);
  }

  /** The modifiers visitMethod builds, one bit at a time. */
  method BuildMethodModifiers(access: Access, inInterface: bool) returns (modifiers: set<Modifier>)
    ensures modifiers == MethodModifiers(access, inInterface)
  {
    modifiers := {};
    modifiers := modifiers + When(Has(access, ACC_PUBLIC) && !inInterface, Public);
    modifiers := modifiers + When(Has(access, ACC_PRIVATE), Private);
    modifiers := modifiers + When(Has(access, ACC_PROTECTED), Protected);
    modifiers := modifiers + When(Has(access, ACC_FINAL), Final);
  }

  // ---------------------------------------------------------------------------
  // the visitor

  /** What visitField builds for a field. */
  datatype FieldInfo = FieldInfo(name: string, isStatic: bool, fieldType: ParameterizedType, owner: string,
                                 modifiers: set<Modifier>, synthetic: bool, initializer: Option<Expression>,
                                 annotations: seq<AnnotationExpression>)

  /** What visitMethod builds for a method before handing it to the method visitor. */
  datatype MethodHeader = MethodHeader(name: string, methodType: MethodType, owner: string, modifiers: set<Modifier>,
                                       lastParameterIsVarargs: bool, parameterTypes: seq<ParameterizedType>,
                                       returnType: ParameterizedType, annotations: seq<AnnotationExpression>,
                                       methodItem: Option<MethodItem>)

  class MyClassVisitor {
    /** The fully qualified name of the type being visited; None before visit and after visitEnd. */
    var currentType: Option<string>
    var currentTypeIsInterface: bool
    /** The state of the current type's builder. */
    var typeNature: TypeNature
    var typeModifiers: set<Modifier>
    var parentClass: Option<ParameterizedType>
    var typeAnnotations: seq<AnnotationExpression>
    /** The builder's single abstract method (None for null) and whether the builder was committed. */
    var singleAbstractMethod: Option<MethodHeader>
    var committed: bool

    constructor ()
      ensures currentType == None && singleAbstractMethod == None && !committed
    {
      currentType := None;
      currentTypeIsInterface := false;
      typeNature := Class;
      typeModifiers := {};
      parentClass := None;
      typeAnnotations := [];
      singleAbstractMethod := None;
      committed := false;
    }

    /**
     * visit, up to the parent and interface types: Object is the default
     * parent of every type but Object itself, the nature and the modifiers
     * come from the flags, and the store's annotations for the type are
     * translated.
     */
    method Visit(access: Access, fqn: string, typeItem: Option<seq<StoreAnnotation>>)
      modifies this
      ensures currentType == Some(fqn)
      ensures parentClass == if fqn == "java.lang.Object" then None else Some(ObjectType)
      ensures typeNature == TypeNatureFromOpCode(access) && currentTypeIsInterface == IsInterface(typeNature)
      ensures typeModifiers == TypeModifiers(access)
      ensures typeAnnotations == StoredAnnotations(typeItem)
      ensures singleAbstractMethod == old(singleAbstractMethod) && committed == old(committed)
    {
      currentType := Some(fqn);
      typeModifiers := {};
      parentClass := if fqn != "java.lang.Object" then Some(ObjectType) else None;
      typeNature := TypeNatureFromOpCode(access);
      currentTypeIsInterface := IsInterface(typeNature);
      CheckTypeFlags(access);
      assert typeModifiers == AccessModifiers(access);
      AddClassModifiers(access);
      typeAnnotations := TranslateStored(typeItem);
    }

    /** The abstract and final modifiers visit gives a class. */
    method AddClassModifiers(access: Access)
      modifies this`typeModifiers
      ensures typeModifiers == old(typeModifiers) + ClassModifiers(access, typeNature)
    {
      if typeNature == Class {
        typeModifiers := typeModifiers + When(Has(access, ACC_ABSTRACT), Abstract);
        typeModifiers := typeModifiers + When(Has(access, ACC_FINAL), Final);
      }
    }

    /** checkTypeFlags on the current type's builder. */
    method CheckTypeFlags(access: Access)
      modifies this`typeModifiers
      ensures typeModifiers == old(typeModifiers) + AccessModifiers(access)
    {
      typeModifiers := typeModifiers + When(Has(access, ACC_STATIC), Static);
      typeModifiers := typeModifiers + When(Has(access, ACC_PRIVATE), Private);
      typeModifiers := typeModifiers + When(Has(access, ACC_PROTECTED), Protected);
      typeModifiers := typeModifiers + When(Has(access, ACC_PUBLIC), Public);
    }

    /**
     * visitField: nothing outside a type, for a synthetic field, or when the
     * field's type cannot be decoded (`fieldType` is None); otherwise the
     * field with the modifiers of its flags, ACC_ENUM recorded as synthetic,
     * its constant value (if any) as initializer, and the store's
     * annotations for it. Translating the constant may throw.
     */
    method VisitField(access: Access, name: string, fieldType: Option<ParameterizedType>, value: Option<Value>,
                      loadable: set<string>, fieldItem: Option<seq<StoreAnnotation>>)
      returns (r: Try<Option<FieldInfo>>)
      ensures (currentType.None? || Has(access, ACC_SYNTHETIC) || fieldType.None?) ==> r == Success(None)
      ensures currentType.Some? && !Has(access, ACC_SYNTHETIC) && fieldType.Some? ==>
        (r.Failure? <==> value.Some? && MissingType(loadable, value.value)) &&
        (r.Success? ==> (r.value.Some? &&
          var f := r.value.value;
          f.name == name && f.owner == currentType.value && f.fieldType == fieldType.value &&
          f.isStatic == Has(access, ACC_STATIC) && f.modifiers == FieldModifiers(access) &&
          f.synthetic == Has(access, ACC_ENUM) && Success(f.initializer) == Initializer(loadable, value) &&
          f.annotations == StoredAnnotations(fieldItem)))
    {
      if currentType.None? {
        return Success(None);
      }
      if Has(access, ACC_SYNTHETIC) {
        return Success(None);
      }
      if fieldType.None? {
        return Success(None);
      }
      var isStatic := Has(access, ACC_STATIC);
      var modifiers := BuildFieldModifiers(access);
      var synthetic := Has(access, ACC_ENUM);
      var initializer: Option<Expression> := None;
      if value.Some? {
        ThrowsExactlyOnMissingType(loadable, value.value);
        match From(loadable, value.value)
        case Failure(x) =>
          return Failure(x);
        case Success(expression) =>
          if !expression.EmptyExpression? {
            initializer := Some(expression);
          }
      }
      var annotations := TranslateStored(fieldItem);
      return Success(Some(FieldInfo(name, isStatic, fieldType.value, currentType.value, modifiers, synthetic,
                                    initializer, annotations)));
    }

    /**
     * visitMethod, given the method's decoded types (`types`: its parameter
     * types then its return type; None when the decoder gives null) and the
     * detailed string of a type: nothing outside a type, for `lambda$...`
     * and `<clinit>`, for a synthetic method, or when the types are missing;
     * otherwise the method's kind, modifiers, varargs flag, types and the
     * store's entry under its signature.
     */
    method VisitMethod(access: Access, name: string, types: Option<seq<ParameterizedType>>,
                       detailedString: ParameterizedType -> string, methodItems: Option<map<string, MethodItem>>)
      returns (r: Try<Option<MethodHeader>>)
      ensures (currentType.None? || StartsWith(name, "lambda$") || name == "<clinit>" || Has(access, ACC_SYNTHETIC) ||
               types.None?) ==> r == Success(None)
      ensures currentType.Some? && !StartsWith(name, "lambda$") && name != "<clinit>" && !Has(access, ACC_SYNTHETIC) &&
              types.Some? ==>
        (r.Failure? <==> |types.value| == 0) &&
        (r.Success? ==> (r.value.Some? &&
          var m := r.value.value;
          var ts := types.value;
          m.name == name && m.owner == currentType.value &&
          m.methodType == MethodTypeOf(name, access, currentTypeIsInterface) &&
          m.modifiers == MethodModifiers(access, currentTypeIsInterface) &&
          m.lastParameterIsVarargs == Has(access, ACC_VARARGS) &&
          m.parameterTypes + [m.returnType] == ts &&
          m.methodItem == StoreEntry(methodItems, MakeMethodSignature(name, SimpleName(currentType.value),
                                                                      DetailedStrings(m.parameterTypes, detailedString))) &&
          m.annotations == StoredAnnotations(if m.methodItem.Some? then Some(m.methodItem.value.annotations) else None)))
    {
      if currentType.None? {
        return Success(None);
      }
      if StartsWith(name, "lambda$") || name == "<clinit>" {
        return Success(None);
      }
      if Has(access, ACC_SYNTHETIC) {
        return Success(None);
      }
      if types.None? {
        return Success(None);
      }
      r := BuildMethodHeader(access, name, currentType.value, types.value, detailedString, methodItems);
    }

    /** The part of visitMethod after the skipped cases: the header of a method of type `owner`. */
    method BuildMethodHeader(access: Access, name: string, owner: string, ts: seq<ParameterizedType>,
                             detailedString: ParameterizedType -> string, methodItems: Option<map<string, MethodItem>>)
      returns (r: Try<Option<MethodHeader>>)
      ensures r.Failure? <==> |ts| == 0
      ensures r.Success? ==> (r.value.Some? &&
          var m := r.value.value;
          m.name == name && m.owner == owner &&
          m.methodType == MethodTypeOf(name, access, currentTypeIsInterface) &&
          m.modifiers == MethodModifiers(access, currentTypeIsInterface) &&
          m.lastParameterIsVarargs == Has(access, ACC_VARARGS) &&
          m.parameterTypes + [m.returnType] == ts &&
          m.methodItem == StoreEntry(methodItems, MakeMethodSignature(name, SimpleName(owner),
                                                                      DetailedStrings(m.parameterTypes, detailedString))) &&
          m.annotations == StoredAnnotations(if m.methodItem.Some? then Some(m.methodItem.value.annotations) else None))
    {
      var methodType;
      if name == "<init>" {
        methodType := Constructor;
      } else {
        methodType := ExtractMethodType(access, currentTypeIsInterface);
      }
      var modifiers := BuildMethodModifiers(access, currentTypeIsInterface);
      var lastParameterIsVarargs := Has(access, ACC_VARARGS);
      if |ts| == 0 {
        return Failure(IndexOutOfBounds);
      }
      var returnType := ts[|ts| - 1];
      var parameterTypes := ts[..|ts| - 1];
      var methodItem, annotations := MethodEntry(name, owner, parameterTypes, detailedString, methodItems);
      assert parameterTypes + [returnType] == ts;
      return Success(Some(MethodHeader(name, methodType, owner, modifiers, lastParameterIsVarargs,
                                       parameterTypes, returnType, annotations, methodItem)));
    }

    /** The store's entry for the method, looked up by its signature, and its annotations. */
    static method MethodEntry(name: string, owner: string, parameterTypes: seq<ParameterizedType>,
                              detailedString: ParameterizedType -> string, methodItems: Option<map<string, MethodItem>>)
      returns (methodItem: Option<MethodItem>, annotations: seq<AnnotationExpression>)
      ensures methodItem == StoreEntry(methodItems, MakeMethodSignature(name, SimpleName(owner),
                                                                        DetailedStrings(parameterTypes, detailedString)))
      ensures annotations == StoredAnnotations(if methodItem.Some? then Some(methodItem.value.annotations) else None)
    {
      methodItem := None;
      annotations := [];
      if methodItems.Some? {
        var signature := MakeMethodSignature(name, SimpleName(owner), DetailedStrings(parameterTypes, detailedString));
        if signature in methodItems.value {
          methodItem := Some(methodItems.value[signature]);
          annotations := TranslateStored(Some(methodItem.value.annotations));
        }
      }
    }

    /**
     * visitEnd: for a current type, the builder gets the functional
     * interface's method (computed by the runtime, here
     * `computeFunctionalInterface`, for an interface only, null otherwise),
     * it is committed, and the visitor no longer has a current type. Without
     * a current type nothing happens.
     */
    method VisitEnd(computeFunctionalInterface: string -> Option<MethodHeader>)
      modifies this
      ensures currentType == None
      ensures old(currentType).None? ==> singleAbstractMethod == old(singleAbstractMethod) && committed == old(committed)
      ensures old(currentType).Some? ==> committed
      ensures old(currentType).Some? ==>
        singleAbstractMethod == if IsInterface(old(typeNature)) then computeFunctionalInterface(old(currentType).value) else None
      ensures typeNature == old(typeNature) && typeModifiers == old(typeModifiers)
      ensures parentClass == old(parentClass) && typeAnnotations == old(typeAnnotations)
      ensures currentTypeIsInterface == old(currentTypeIsInterface)
    {
      if currentType.Some? {
        singleAbstractMethod := if IsInterface(typeNature) then computeFunctionalInterface(currentType.value) else None;
        committed := true;
        currentType := None;
      }
    }
  }

  /**
   * visit followed by visitEnd: on legal flags the type's builder is
   * committed, with a functional-interface method exactly when
   * ACC_INTERFACE is set.
   */
  method VisitedType(access: Access, fqn: string, typeItem: Option<seq<StoreAnnotation>>,
                     computeFunctionalInterface: string -> Option<MethodHeader>)
    returns (sam: Option<MethodHeader>, done: bool)
    requires LegalClassFlags(access)
    ensures done
    ensures sam == if Has(access, ACC_INTERFACE) then computeFunctionalInterface(fqn) else None
  {
    var visitor := new MyClassVisitor();
    visitor.Visit(access, fqn, typeItem);
    InterfaceExactlyWhenFlagged(access);
    visitor.VisitEnd(computeFunctionalInterface);
    sam := visitor.singleAbstractMethod;
    done := visitor.committed;
  }
}
