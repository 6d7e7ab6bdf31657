/**
 * Helpers shared by the source parsers: the zero-padded indices that keep
 * generated names in numeric order, the keyword tables for a type
 * declaration's nature and modifiers, and the first pass over a compilation
 * unit that finds every declared type, nested ones included, and keys it by
 * its fully qualified name.
 */
module CommonParse {
  import opened JavaLang

  // ---------------------------------------------------------------------------
  // pad

  const AWFULLY_LONG_METHOD: string := "?? awfully long method"

  /** pad(i, n): Integer.toString(i), zero-padded to the width of the largest index below n. */
  function Pad(i: Int32, n: Int32): (r: Try<string>)
    ensures r.Failure? <==> n > 10000
    ensures r.Failure? ==> r.exception == UnsupportedOperation(AWFULLY_LONG_METHOD)
  {
    var s := IntToString(i as int);
    if n <= 10 then Success(s)
    else if n <= 100 then
      if i < 10 then Success("0" + s) else Success(s)
    else if n <= 1000 then
      if i < 10 then Success("00" + s) else if i < 100 then Success("0" + s) else Success(s)
    else if n <= 10000 then
      if i < 10 then Success("000" + s) else if i < 100 then Success("00" + s)
      else if i < 1000 then Success("0" + s) else Success(s)
    else Failure(UnsupportedOperation(AWFULLY_LONG_METHOD))
  }

  /** The number of digits of the largest index below `n`, for the sizes pad handles. */
  function Width(n: int): nat
  {
    if n <= 10 then 1 else if n <= 100 then 2 else if n <= 1000 then 3 else 4
  }

  /** The length of a number's decimal digits, for the values up to four digits. */
  lemma DigitsLength(i: nat)
    ensures i < 10 ==> |Digits(i)| == 1
    ensures 10 <= i < 100 ==> |Digits(i)| == 2
    ensures 100 <= i < 1000 ==> |Digits(i)| == 3
    ensures 1000 <= i < 10000 ==> |Digits(i)| == 4
    ensures 1000 <= i ==> |Digits(i)| >= 4
  {
    if i >= 10 {
      assert Digits(i) == Digits(i / 10) + [DigitChar(i % 10)];
      if i >= 100 {
        assert Digits(i / 10) == Digits(i / 10 / 10) + [DigitChar(i / 10 % 10)];
        if i >= 1000 {
          assert Digits(i / 10 / 10) == Digits(i / 10 / 10 / 10) + [DigitChar(i / 10 / 10 % 10)];
        }
      }
    }
  }

  /** With no more than ten indices the plain decimal is returned. */
  lemma PadPlain(i: Int32, n: Int32)
    requires n <= 10
    ensures Pad(i, n) == Success(IntToString(i as int))
  {
  }

  /** The zeros put in front of a string. */
  function Zeros(k: nat): (r: string)
    ensures |r| == k && forall j :: 0 <= j < k ==> r[j] == '0'
  {
    if k == 0 then "" else "0" + Zeros(k - 1)
  }

  /**
   * pad never truncates: the result is the decimal of `i` behind zeros, and
   * for a non-negative index it is as wide as the widest index below `n`, or
   * wider when `i` has more digits than that.
   */
  lemma PadShape(i: Int32, n: Int32)
    requires n <= 10000
    ensures exists z: nat :: Pad(i, n) == Success(Zeros(z) + IntToString(i as int))
    ensures i >= 0 ==> |Pad(i, n).value| == if |Digits(i as nat)| <= Width(n as int) then Width(n as int) else |Digits(i as nat)|
  {
    var s := IntToString(i as int);
    var r := Pad(i, n).value;
    assert Zeros(0) + s == s;
    assert "0" == Zeros(1) && "00" == Zeros(2) && "000" == Zeros(3);
    if r == s {
      assert r == Zeros(0) + s;
    } else if r == "0" + s {
      assert r == Zeros(1) + s;
    } else if r == "00" + s {
      assert r == Zeros(2) + s;
    } else {
      assert r == Zeros(3) + s;
    }
    if i >= 0 {
      DigitsLength(i as nat);
    }
  }

  /** Leading zeros do not change the value of a digit string. */
  lemma {:induction false} ZerosValue(k: nat, d: string)
    requires forall j :: 0 <= j < |d| ==> IsDigit(d[j])
    ensures forall j :: 0 <= j < |Zeros(k) + d| ==> IsDigit((Zeros(k) + d)[j])
    ensures DigitsValue(Zeros(k) + d) == DigitsValue(d)
    decreases |d|
  {
    var s := Zeros(k) + d;
    forall j | 0 <= j < |s| ensures IsDigit(s[j]) {
      if j < k { assert s[j] == '0'; } else { assert s[j] == d[j - k]; }
    }
    if d == [] {
      assert s == Zeros(k);
      ZerosOnly(k);
    } else {
      var d' := d[..|d| - 1];
      ZerosValue(k, d');
      assert s[..|s| - 1] == Zeros(k) + d';
    }
  }

  lemma {:induction false} ZerosOnly(k: nat)
    ensures DigitsValue(Zeros(k)) == 0
  {
    if k > 0 {
      ZerosOnly(k - 1);
      assert Zeros(k) == Zeros(k - 1) + "0" by {
        ZerosSnoc(k);
      }
    }
  }

  lemma {:induction false} ZerosSnoc(k: nat)
    requires k > 0
    ensures Zeros(k) == Zeros(k - 1) + "0"
  {
    if k > 1 {
      ZerosSnoc(k - 1);
    }
  }

  /** A padded non-negative index reads back as the index. */
  lemma PadParsesBack(i: Int32, n: Int32)
    requires 0 <= i && n <= 10000
    ensures var r := Pad(i, n).value;
      (forall j :: 0 <= j < |r| ==> IsDigit(r[j])) && DigitsValue(r) == i as int
  {
    PadShape(i, n);
    var z: nat :| Pad(i, n) == Success(Zeros(z) + IntToString(i as int));
    ZerosValue(z, Digits(i as nat));
    DigitsRoundTrip(i as nat);
  }

  /**
   * For the indices 0 .. n-1 every padded name has the same width, so the
   * names in string order are the indices in numeric order.
   */
  lemma PadKeepsOrder(i: Int32, j: Int32, n: Int32)
    requires 0 <= i < n && 0 <= j < n && n <= 10000
    ensures Precedes(Pad(i, n).value, Pad(j, n).value) <==> i < j
    ensures Pad(i, n).value == Pad(j, n).value <==> i == j
  {
    PadShape(i, n);
    PadShape(j, n);
    DigitsLength(i as nat);
    DigitsLength(j as nat);
    PadParsesBack(i, n);
    PadParsesBack(j, n);
    DigitsOrder(Pad(i, n).value, Pad(j, n).value);
  }

  // ---------------------------------------------------------------------------
  // keywords

  /** The token kinds of the keywords a type declaration can carry; every other token is OTHER. */
  datatype TokenType =
    | CLASS | INTERFACE | ENUM | RECORD
    | PUBLIC | PRIVATE | PROTECTED | FINAL | SEALED | ABSTRACT | NON_SEALED | STATIC
    | OTHER

  datatype TypeNature = Class | Interface | Annotation | Enum | Record

  datatype TypeModifier = Public | Private | Protected | Final | Sealed | Abstract | NonSealed | Static

  /** getTypeNature: `interface` in an annotation type declaration is an annotation. */
  function TypeNatureOf(annotationType: bool, tt: TokenType): Option<TypeNature>
  {
    match tt
    case CLASS => Some(Class)
    case INTERFACE => if annotationType then Some(Annotation) else Some(Interface)
    case ENUM => Some(Enum)
    case RECORD => Some(Record)
    case _ => None
  }

  /** The keyword that declares a type of the given nature. */
  function NatureKeyword(n: TypeNature): TokenType
  {
    match n
    case Class => CLASS
    case Interface => INTERFACE
    case Annotation => INTERFACE
    case Enum => ENUM
    case Record => RECORD
  }

  /**
   * A token gives a nature exactly when it is that nature's keyword, where
   * `interface` gives an annotation inside, and only inside, an annotation
   * type declaration; every other token gives none.
   */
  lemma TypeNatureKeyword(annotationType: bool, tt: TokenType, n: TypeNature)
    ensures TypeNatureOf(annotationType, tt) == Some(n) <==>
      tt == NatureKeyword(n) && (tt == INTERFACE ==> (n == Annotation <==> annotationType))
    ensures TypeNatureOf(annotationType, tt).None? <==> tt !in {CLASS, INTERFACE, ENUM, RECORD}
  {
  }

  /** getTypeModifier. */
  function TypeModifierOf(tt: TokenType): Option<TypeModifier>
  {
    match tt
    case PUBLIC => Some(Public)
    case PRIVATE => Some(Private)
    case PROTECTED => Some(Protected)
    case FINAL => Some(Final)
    case SEALED => Some(Sealed)
    case ABSTRACT => Some(Abstract)
    case NON_SEALED => Some(NonSealed)
    case STATIC => Some(Static)
    case _ => None
  }

  /** The keyword of a type modifier. */
  function ModifierKeyword(m: TypeModifier): TokenType
  {
    match m
    case Public => PUBLIC
    case Private => PRIVATE
    case Protected => PROTECTED
    case Final => FINAL
    case Sealed => SEALED
    case Abstract => ABSTRACT
    case NonSealed => NON_SEALED
    case Static => STATIC
  }

  /** A token gives a modifier exactly when it is that modifier's keyword; no keyword gives both a nature and a modifier. */
  lemma TypeModifierKeyword(tt: TokenType, m: TypeModifier)
    ensures TypeModifierOf(tt) == Some(m) <==> tt == ModifierKeyword(m)
    ensures TypeModifierOf(tt).Some? ==> forall a: bool {:trigger TypeNatureOf(a, tt)} :: TypeNatureOf(a, tt).None?
  {
  }

  // ---------------------------------------------------------------------------
  // the syntax tree, as far as the search for types looks at it

  /**
   * A node of the parsed compilation unit. `Body` stands for a class,
   * interface, record or enum body; `Other` for every node the search
   * passes over.
   */
  datatype Node =
    | TypeDeclaration(annotationType: bool, children: seq<Node>)
    | EmptyDeclaration
    | Modifiers(children: seq<Node>)
    | KeyWord(tokenType: TokenType)
    | Identifier(source: string)
    | Body(children: seq<Node>)
    | Other(children: seq<Node>)

  /** The child nodes, in order; a leaf has none. */
  function Children(n: Node): seq<Node>
  {
    match n
    case TypeDeclaration(_, cs) => cs
    case Modifiers(cs) => cs
    case Body(cs) => cs
    case Other(cs) => cs
    case _ => []
  }

  /** firstChildOfType(Identifier.class).getSource(). */
  function FirstIdentifier(cs: seq<Node>): (r: Option<string>)
    ensures r.Some? <==> exists k :: 0 <= k < |cs| && cs[k].Identifier?
    ensures r.Some? ==> exists k :: (0 <= k < |cs| && cs[k].Identifier? && r.value == cs[k].source &&
                                     forall j :: 0 <= j < k ==> !cs[j].Identifier?)
  {
    if cs == [] then None
    else if cs[0].Identifier? then Some(cs[0].source)
    else
      var r := FirstIdentifier(cs[1..]);
      assert forall k :: 1 <= k < |cs| ==> cs[k] == cs[1..][k - 1];
      if r.Some? then
        var k :| (0 <= k < |cs[1..]| && cs[1..][k].Identifier? && r.value == cs[1..][k].source &&
                  forall j :: 0 <= j < k ==> !cs[1..][j].Identifier?);
        assert cs[k + 1].Identifier? && r.value == cs[k + 1].source;
        assert forall j :: 0 <= j < k + 1 ==> !cs[j].Identifier?;
        r
      else r
  }

  // ---------------------------------------------------------------------------
  // types

  /** A type, with what the first pass gives it: its nature and its modifiers. */
  datatype TypeInfo = TypeInfo(
    fullyQualifiedName: string,
    simpleName: string,
    enclosingType: Option<string>,
    typeNature: Option<TypeNature>,
    typeModifiers: seq<TypeModifier>)

  /** Where a declaration sits: at the top of a compilation unit of a package, or inside a type. */
  datatype Parent = CompilationUnit(packageName: string) | EnclosingType(enclosing: TypeInfo)

  /** A package-qualified name; the unnamed package adds no prefix. */
  function Qualified(packageName: string, name: string): string
  {
    if packageName == "" then name else packageName + "." + name
  }

  /** runtime.newTypeInfo: a fresh type of the given name under its parent. */
  function NewTypeInfo(parent: Parent, name: string): (r: TypeInfo)
    ensures r.simpleName == name && r.typeNature.None? && r.typeModifiers == []
  {
    match parent
    case CompilationUnit(p) => TypeInfo(Qualified(p, name), name, None, None, [])
    case EnclosingType(t) => TypeInfo(t.fullyQualifiedName + "." + name, name, Some(t.fullyQualifiedName), None, [])
  }

  /** What the scan over a declaration's children collects. */
  datatype Scan = Scan(identifier: Option<string>, sub: Option<Node>, typeNature: Option<TypeNature>, typeModifiers: seq<TypeModifier>)

  const NOTHING_SEEN := Scan(None, None, None, [])

  /**
   * One keyword: the nature it gives, asserted to be the first one seen, and
   * the modifier it gives.
   */
  function ScanKeyWord(annotationType: bool, s: Scan, tt: TokenType): (r: Try<Scan>)
    ensures r.Success? ==> r.value.identifier == s.identifier && r.value.sub == s.sub
  {
    var tn := TypeNatureOf(annotationType, tt);
    if tn.Some? && s.typeNature.Some? then Failure(AssertionFailed)
    else
      var tm := TypeModifierOf(tt);
      Success(s.(typeNature := if tn.Some? then tn else s.typeNature,
                 typeModifiers := s.typeModifiers + if tm.Some? then [tm.value] else []))
  }

  /** The keyword children of a Modifiers node, from position `j` on. */
  function ScanModifiers(annotationType: bool, s: Scan, ms: seq<Node>, j: nat): (r: Try<Scan>)
    requires j <= |ms|
    ensures r.Success? ==> r.value.identifier == s.identifier && r.value.sub == s.sub
    decreases |ms| - j
  {
    if j == |ms| then Success(s)
    else if ms[j].KeyWord? then
      match ScanKeyWord(annotationType, s, ms[j].tokenType)
      case Failure(e) => Failure(e)
      case Success(s') => ScanModifiers(annotationType, s', ms, j + 1)
    else ScanModifiers(annotationType, s, ms, j + 1)
  }

  /**
   * The loop over a type declaration's children from position `i` on: it
   * stops at the first body; the last identifier before it is kept.
   */
  function ScanChildren(annotationType: bool, s: Scan, cs: seq<Node>, i: nat): (r: Try<Scan>)
    requires i <= |cs|
    ensures r.Success? && r.value.sub.Some? ==> r.value.sub == s.sub || (r.value.sub.value in cs && r.value.sub.value.Body?)
    decreases |cs| - i, 0
  {
    if i == |cs| then Success(s)
    else match cs[i]
      case Modifiers(ms) => ScanOn(annotationType, ScanModifiers(annotationType, s, ms, 0), cs, i + 1)
      case KeyWord(tt) => ScanOn(annotationType, ScanKeyWord(annotationType, s, tt), cs, i + 1)
      case Identifier(name) => ScanChildren(annotationType, s.(identifier := Some(name)), cs, i + 1)
      case Body(_) => Success(s.(sub := Some(cs[i])))
      case _ => ScanChildren(annotationType, s, cs, i + 1)
  }

  /** The scan goes on from position `i` after a step, unless the step threw. */
  function ScanOn(annotationType: bool, step: Try<Scan>, cs: seq<Node>, i: nat): (r: Try<Scan>)
    requires i <= |cs|
    ensures r.Success? && r.value.sub.Some? ==> (step.Success? && r.value.sub == step.value.sub) || (r.value.sub.value in cs && r.value.sub.value.Body?)
    decreases |cs| - i, 1
  {
    match step
    case Failure(e) => Failure(e)
    case Success(s) => ScanChildren(annotationType, s, cs, i)
  }

  /** The type a declaration stands for: the given one at the top level if there is one, else a new one. */
  function DeclaredBase(parent: Parent, given: Option<TypeInfo>, typeName: string): (r: Try<TypeInfo>)
  {
    if parent.CompilationUnit? && given.Some? then
      if given.value.simpleName == typeName then Success(given.value) else Failure(AssertionFailed)
    else Success(NewTypeInfo(parent, typeName))
  }

  /** What handleTypeDeclaration makes of a declaration: its type, and the body it searches next, if any. */
  datatype Declared = Declared(typeInfo: TypeInfo, sub: Option<Node>)

  /**
   * The first part of handleTypeDeclaration: the declared type, under the
   * name its first identifier gives it, with the nature and modifiers from
   * its keywords, and its body.
   */
  function Declaration(parent: Parent, given: Option<TypeInfo>, td: Node): (r: Try<Declared>)
    requires td.TypeDeclaration?
    ensures r.Success? ==> FirstIdentifier(td.children).Some?
    ensures r.Success? ==> r.value.typeInfo.fullyQualifiedName == StoredName(parent, given, FirstIdentifier(td.children).value)
    ensures r.Success? && r.value.sub.Some? ==> r.value.sub.value in td.children && r.value.sub.value.Body?
  {
    match ScanChildren(td.annotationType, NOTHING_SEEN, td.children, 0)
    case Failure(e) => Failure(e)
    case Success(s) =>
      if s.identifier.None? then Failure(AssertionFailed)
      else match FirstIdentifier(td.children)
        case None => Failure(NullPointer)
        case Some(typeName) =>
          match DeclaredBase(parent, given, typeName)
          case Failure(e) => Failure(e)
          case Success(base) =>
            Success(Declared(base.(typeNature := s.typeNature, typeModifiers := base.typeModifiers + s.typeModifiers), s.sub))
  }

  /**
   * handleTypeDeclaration: the declared type is put into `acc` under its
   * fully qualified name, and then everything found in its body.
   */
  function HandleDecl(parent: Parent, given: Option<TypeInfo>, td: Node, acc: map<string, TypeInfo>): Try<map<string, TypeInfo>>
    requires td.TypeDeclaration?
    decreases td, 2
  {
    match Declaration(parent, given, td)
    case Failure(e) => Failure(e)
    case Success(d) =>
      var m := acc[d.typeInfo.fullyQualifiedName := d.typeInfo];
      if d.sub.None? then Success(m)
      else match FindTypes(EnclosingType(d.typeInfo), given, d.sub.value)
        case Failure(e) => Failure(e)
        case Success(nested) => Success(m + nested)
  }

  /** recursivelyFindTypes: every type declaration among the children of `body`, in order, into a new map. */
  function FindTypes(parent: Parent, given: Option<TypeInfo>, body: Node): Try<map<string, TypeInfo>>
    decreases body, 1
  {
    FindTypesFrom(parent, given, body, 0, map[])
  }

  function FindTypesFrom(parent: Parent, given: Option<TypeInfo>, body: Node, i: nat, acc: map<string, TypeInfo>): Try<map<string, TypeInfo>>
    requires i <= |Children(body)|
    decreases body, 0, |Children(body)| - i
  {
    if i == |Children(body)| then Success(acc)
    else if Children(body)[i].TypeDeclaration? then
      match HandleDecl(parent, given, Children(body)[i], acc)
      case Failure(e) => Failure(e)
      case Success(m) => FindTypesFrom(parent, given, body, i + 1, m)
    else FindTypesFrom(parent, given, body, i + 1, acc)
  }

  // ---------------------------------------------------------------------------
  // what the search finds

  /**
   * Every entry sits under its own fully qualified name, and a nested type's
   * name is its enclosing type's name, a dot and its simple name, where the
   * enclosing type is itself in the map or among `outer`.
   */
  predicate WellPlaced(m: map<string, TypeInfo>, outer: set<string>)
  {
    forall k :: k in m ==>
      m[k].fullyQualifiedName == k &&
      (m[k].enclosingType.Some? ==>
        k == m[k].enclosingType.value + "." + m[k].simpleName && m[k].enclosingType.value in m.Keys + outer)
  }

  /** The names a parent's declarations may be nested in. */
  function Outer(parent: Parent): set<string>
  {
    if parent.EnclosingType? then {parent.enclosing.fullyQualifiedName} else {}
  }

  /** A given primary type is a top-level type. */
  predicate TopLevel(given: Option<TypeInfo>)
  {
    given.Some? ==> given.value.enclosingType.None?
  }

  /** The name under which a declaration whose first identifier is `name` is stored. */
  function StoredName(parent: Parent, given: Option<TypeInfo>, name: string): string
  {
    if parent.CompilationUnit? && given.Some? then given.value.fullyQualifiedName
    else NewTypeInfo(parent, name).fullyQualifiedName
  }

  lemma WellPlacedUnion(a: map<string, TypeInfo>, b: map<string, TypeInfo>, outerA: set<string>, outerB: set<string>)
    requires WellPlaced(a, outerA) && WellPlaced(b, outerB) && outerB <= a.Keys + b.Keys
    ensures WellPlaced(a + b, outerA)
  {
  }

  /** handleTypeDeclaration keeps the map well placed and adds to it without removing anything. */
  lemma {:induction false} HandleDeclPlaced(parent: Parent, given: Option<TypeInfo>, td: Node, acc: map<string, TypeInfo>)
    requires td.TypeDeclaration? && TopLevel(given) && WellPlaced(acc, Outer(parent))
    ensures HandleDecl(parent, given, td, acc).Success? ==>
      var m := HandleDecl(parent, given, td, acc).value;
      WellPlaced(m, Outer(parent)) && acc.Keys <= m.Keys &&
      StoredName(parent, given, FirstIdentifier(td.children).value) in m
    decreases td, 2
  {
    var d := Declaration(parent, given, td);
    if d.Success? {
      var ti := d.value.typeInfo;
      DeclarationPlaced(parent, given, td);
      PutPlaced(acc, ti, Outer(parent));
      if d.value.sub.Some? {
        FindTypesPlaced(EnclosingType(ti), given, d.value.sub.value);
      }
    }
  }

  /** A nested declared type is named by its enclosing type, a dot and its simple name. */
  lemma DeclarationPlaced(parent: Parent, given: Option<TypeInfo>, td: Node)
    requires td.TypeDeclaration? && TopLevel(given)
    ensures Declaration(parent, given, td).Success? ==>
      var ti := Declaration(parent, given, td).value.typeInfo;
      ti.enclosingType.Some? ==>
        ti.fullyQualifiedName == ti.enclosingType.value + "." + ti.simpleName && ti.enclosingType.value in Outer(parent)
  {
  }

  /** Putting a type under its own name keeps a map well placed. */
  lemma PutPlaced(acc: map<string, TypeInfo>, ti: TypeInfo, outer: set<string>)
    requires WellPlaced(acc, outer)
    requires ti.enclosingType.Some? ==> ti.fullyQualifiedName == ti.enclosingType.value + "." + ti.simpleName && ti.enclosingType.value in outer
    ensures WellPlaced(acc[ti.fullyQualifiedName := ti], outer)
  {
  }

  /** recursivelyFindTypes gives a well-placed map. */
  lemma {:induction false} FindTypesPlaced(parent: Parent, given: Option<TypeInfo>, body: Node)
    requires TopLevel(given)
    ensures FindTypes(parent, given, body).Success? ==> WellPlaced(FindTypes(parent, given, body).value, Outer(parent))
    decreases body, 1
  {
    FindTypesFromPlaced(parent, given, body, 0, map[]);
  }

  /**
   * From position `i` on, the map stays well placed and every type
   * declaration's name ends up in it.
   */
  lemma {:induction false} FindTypesFromPlaced(parent: Parent, given: Option<TypeInfo>, body: Node, i: nat, acc: map<string, TypeInfo>)
    requires i <= |Children(body)| && TopLevel(given) && WellPlaced(acc, Outer(parent))
    ensures FindTypesFrom(parent, given, body, i, acc).Success? ==>
      var m := FindTypesFrom(parent, given, body, i, acc).value;
      WellPlaced(m, Outer(parent)) && acc.Keys <= m.Keys
    decreases body, 0, |Children(body)| - i
  {
    if i < |Children(body)| {
      var n := Children(body)[i];
      if n.TypeDeclaration? {
        HandleDeclPlaced(parent, given, n, acc);
        var h := HandleDecl(parent, given, n, acc);
        if h.Success? {
          FindTypesFromPlaced(parent, given, body, i + 1, h.value);
        }
      } else {
        FindTypesFromPlaced(parent, given, body, i + 1, acc);
      }
    }
  }

  /**
   * Every type declaration among the children of `body` is found, under the
   * name its first identifier gives it.
   */
  lemma {:induction false} FindTypesFindsEach(parent: Parent, given: Option<TypeInfo>, body: Node, i: nat, acc: map<string, TypeInfo>, j: nat)
    requires i <= j < |Children(body)| && TopLevel(given) && WellPlaced(acc, Outer(parent))
    requires Children(body)[j].TypeDeclaration?
    ensures FindTypesFrom(parent, given, body, i, acc).Success? ==>
      FirstIdentifier(Children(body)[j].children).Some? &&
      StoredName(parent, given, FirstIdentifier(Children(body)[j].children).value) in FindTypesFrom(parent, given, body, i, acc).value
    decreases j - i
  {
    var n := Children(body)[i];
    if n.TypeDeclaration? {
      HandleDeclPlaced(parent, given, n, acc);
      var h := HandleDecl(parent, given, n, acc);
      if h.Success? {
        if i < j {
          FindTypesFindsEach(parent, given, body, i + 1, h.value, j);
        } else {
          HandleDeclNamed(parent, given, n, acc);
          FindTypesFromPlaced(parent, given, body, i + 1, h.value);
        }
      }
    } else {
      FindTypesFindsEach(parent, given, body, i + 1, acc, j);
    }
  }

  /** A declaration handled without throwing has an identifier. */
  lemma HandleDeclNamed(parent: Parent, given: Option<TypeInfo>, td: Node, acc: map<string, TypeInfo>)
    requires td.TypeDeclaration?
    ensures HandleDecl(parent, given, td, acc).Success? ==> FirstIdentifier(td.children).Some?
  {
  }

  /**
   * `name` is the fully qualified name of a type declared among the
   * children of `body`, or nested in one of their bodies at any depth.
   */
  ghost predicate DeclaredIn(parent: Parent, given: Option<TypeInfo>, body: Node, name: string)
    decreases body, 1
  {
    DeclaredFrom(parent, given, body, 0, name)
  }

  /** The same, among the children of `body` from position `i` on. */
  ghost predicate DeclaredFrom(parent: Parent, given: Option<TypeInfo>, body: Node, i: nat, name: string)
    requires i <= |Children(body)|
    decreases body, 0, |Children(body)| - i
  {
    i < |Children(body)| &&
    ((Children(body)[i].TypeDeclaration? && DeclaredAt(parent, given, Children(body)[i], name)) ||
     DeclaredFrom(parent, given, body, i + 1, name))
  }

  /** `name` is the name of the declaration `td` itself or of a type declared in its body. */
  ghost predicate DeclaredAt(parent: Parent, given: Option<TypeInfo>, td: Node, name: string)
    requires td.TypeDeclaration?
    decreases td, 2
  {
    var d := Declaration(parent, given, td);
    d.Success? &&
    (name == d.value.typeInfo.fullyQualifiedName ||
     (d.value.sub.Some? && DeclaredIn(EnclosingType(d.value.typeInfo), given, d.value.sub.value, name)))
  }

  /** handleTypeDeclaration adds exactly the names declared by `td`, at any depth. */
  lemma {:induction false} HandleDeclFinds(parent: Parent, given: Option<TypeInfo>, td: Node, acc: map<string, TypeInfo>, name: string)
    requires td.TypeDeclaration?
    ensures HandleDecl(parent, given, td, acc).Success? ==>
      (name in HandleDecl(parent, given, td, acc).value <==> name in acc || DeclaredAt(parent, given, td, name))
    decreases td, 2
  {
    var d := Declaration(parent, given, td);
    if d.Success? && d.value.sub.Some? {
      FindTypesFinds(EnclosingType(d.value.typeInfo), given, d.value.sub.value, name);
    }
  }

  /** From position `i` on, the loop adds exactly the names declared there, at any depth. */
  lemma {:induction false} FindTypesFromFinds(parent: Parent, given: Option<TypeInfo>, body: Node, i: nat, acc: map<string, TypeInfo>, name: string)
    requires i <= |Children(body)|
    ensures FindTypesFrom(parent, given, body, i, acc).Success? ==>
      (name in FindTypesFrom(parent, given, body, i, acc).value <==> name in acc || DeclaredFrom(parent, given, body, i, name))
    decreases body, 0, |Children(body)| - i
  {
    if i < |Children(body)| {
      var n := Children(body)[i];
      if n.TypeDeclaration? {
        HandleDeclFinds(parent, given, n, acc, name);
        var h := HandleDecl(parent, given, n, acc);
        if h.Success? {
          FindTypesFromFinds(parent, given, body, i + 1, h.value, name);
        }
      } else {
        FindTypesFromFinds(parent, given, body, i + 1, acc, name);
      }
    }
  }

  lemma {:induction false} FindTypesFinds(parent: Parent, given: Option<TypeInfo>, body: Node, name: string)
    ensures FindTypes(parent, given, body).Success? ==>
      (name in FindTypes(parent, given, body).value <==> DeclaredIn(parent, given, body, name))
    decreases body, 1
  {
    FindTypesFromFinds(parent, given, body, 0, map[], name);
  }

  /**
   * recursivelyFindTypes finds every declared type, nested ones at any
   * depth included, and nothing else.
   */
  lemma FindTypesFindsAll(parent: Parent, given: Option<TypeInfo>, body: Node)
    ensures FindTypes(parent, given, body).Success? ==>
      forall name :: name in FindTypes(parent, given, body).value <==> DeclaredIn(parent, given, body, name)
  {
    forall name
      ensures FindTypes(parent, given, body).Success? ==>
        (name in FindTypes(parent, given, body).value <==> DeclaredIn(parent, given, body, name))
    {
      FindTypesFinds(parent, given, body, name);
    }
  }

  // A public class C with a nested interface D, in package a.b.
  const EXAMPLE_INNER := TypeDeclaration(false, [KeyWord(INTERFACE), Identifier("D"), Body([])])
  const EXAMPLE_OUTER := TypeDeclaration(false, [Modifiers([KeyWord(PUBLIC)]), KeyWord(CLASS), Identifier("C"), Body([EXAMPLE_INNER])])
  const EXAMPLE_C := TypeInfo("a.b.C", "C", None, Some(Class), [Public])
  const EXAMPLE_D := TypeInfo("a.b.C.D", "D", Some("a.b.C"), Some(Interface), [])

  /** The nested interface, searched inside C, is found under C's name. */
  lemma NestedInterfaceFound()
    ensures FindTypes(EnclosingType(EXAMPLE_C), None, Body([EXAMPLE_INNER])) == Success(map["a.b.C.D" := EXAMPLE_D])
  {
    var ic := EXAMPLE_INNER.children;
    var s1 := Scan(None, None, Some(Interface), []);
    var s2 := Scan(Some("D"), None, Some(Interface), []);
    var none: seq<TypeModifier> := [];
    assert none + none == none;
    assert ScanKeyWord(false, NOTHING_SEEN, INTERFACE) == Success(s1);
    assert ScanChildren(false, s2, ic, 2) == Success(s2.(sub := Some(Body([]))));
    assert ScanChildren(false, s1, ic, 1) == ScanChildren(false, s2, ic, 2);
    assert ScanChildren(false, NOTHING_SEEN, ic, 0) == Success(Scan(Some("D"), Some(Body([])), Some(Interface), []));
    assert FindTypes(EnclosingType(EXAMPLE_C), None, Body([])) == Success(map[]);
    assert FirstIdentifier(ic) == Some("D");
    assert "a.b.C" + "." + "D" == "a.b.C.D";
    assert DeclaredBase(EnclosingType(EXAMPLE_C), None, "D") == Success(TypeInfo("a.b.C.D", "D", Some("a.b.C"), None, []));
    var md: map<string, TypeInfo> := map["a.b.C.D" := EXAMPLE_D];
    assert md + map[] == md;
    assert Declaration(EnclosingType(EXAMPLE_C), None, EXAMPLE_INNER) == Success(Declared(EXAMPLE_D, Some(Body([]))));
    assert HandleDecl(EnclosingType(EXAMPLE_C), None, EXAMPLE_INNER, map[]) == Success(md);
    assert FindTypesFrom(EnclosingType(EXAMPLE_C), None, Body([EXAMPLE_INNER]), 1, md) == Success(md);
  }

  /** The scan over C's children collects `public`, `class`, the name and the body. */
  lemma OuterScanned()
    ensures ScanChildren(false, NOTHING_SEEN, EXAMPLE_OUTER.children, 0) == Success(Scan(Some("C"), Some(Body([EXAMPLE_INNER])), Some(Class), [Public]))
    ensures FirstIdentifier(EXAMPLE_OUTER.children) == Some("C")
  {
    var oc := EXAMPLE_OUTER.children;
    var t1 := Scan(None, None, None, [Public]);
    var t2 := Scan(None, None, Some(Class), [Public]);
    var t3 := Scan(Some("C"), None, Some(Class), [Public]);
    var none: seq<TypeModifier> := [];
    assert none + [Public] == [Public] && [Public] + none == [Public];
    assert ScanKeyWord(false, NOTHING_SEEN, PUBLIC) == Success(t1);
    assert ScanModifiers(false, t1, [KeyWord(PUBLIC)], 1) == Success(t1);
    assert ScanModifiers(false, NOTHING_SEEN, [KeyWord(PUBLIC)], 0) == Success(t1);
    assert ScanKeyWord(false, t1, CLASS) == Success(t2);
    assert ScanChildren(false, t3, oc, 3) == Success(t3.(sub := Some(Body([EXAMPLE_INNER]))));
    assert ScanChildren(false, t2, oc, 2) == ScanChildren(false, t3, oc, 3);
    assert ScanChildren(false, t1, oc, 1) == ScanChildren(false, t2, oc, 2);
    assert oc[1..][1..] == [Identifier("C"), Body([EXAMPLE_INNER])];
    assert FirstIdentifier(oc[1..]) == Some("C");
  }

  /** In the whole compilation unit both types are found, D under C's name. */
  lemma NestedTypeFound()
    ensures FindTypes(CompilationUnit("a.b"), None, Other([EXAMPLE_OUTER, EmptyDeclaration])) ==
      Success(map["a.b.C" := EXAMPLE_C, "a.b.C.D" := EXAMPLE_D])
  {
    NestedInterfaceFound();
    OuterScanned();
    var md: map<string, TypeInfo> := map["a.b.C.D" := EXAMPLE_D];
    var all := map["a.b.C" := EXAMPLE_C, "a.b.C.D" := EXAMPLE_D];
    assert "a.b" + "." + "C" == "a.b.C";
    assert DeclaredBase(CompilationUnit("a.b"), None, "C") == Success(TypeInfo("a.b.C", "C", None, None, []));
    var base := TypeInfo("a.b.C", "C", None, None, []);
    var none: seq<TypeModifier> := [];
    assert none + [Public] == [Public];
    assert base.(typeNature := Some(Class), typeModifiers := base.typeModifiers + [Public]) == EXAMPLE_C;
    assert map["a.b.C" := EXAMPLE_C] + md == all;
    assert Declaration(CompilationUnit("a.b"), None, EXAMPLE_OUTER) == Success(Declared(EXAMPLE_C, Some(Body([EXAMPLE_INNER]))));
    assert HandleDecl(CompilationUnit("a.b"), None, EXAMPLE_OUTER, map[]) == Success(all);
    assert FindTypesFrom(CompilationUnit("a.b"), None, Other([EXAMPLE_OUTER, EmptyDeclaration]), 1, all) == Success(all);
  }

  // ---------------------------------------------------------------------------
  // the methods

  /** recursivelyFindTypes: a loop over the children of `body` that fills a new map. */
  method RecursivelyFindTypes(parent: Parent, given: Option<TypeInfo>, body: Node) returns (r: Try<map<string, TypeInfo>>)
    ensures r == FindTypes(parent, given, body)
    decreases body, 1
  {
    var m := map[];
    var cs := Children(body);
    var i := 0;
    while i < |cs|
      invariant i <= |cs|
      invariant FindTypes(parent, given, body) == FindTypesFrom(parent, given, body, i, m)
    {
      if cs[i].TypeDeclaration? {
        var h := HandleTypeDeclaration(parent, given, cs[i], m);
        if h.Failure? {
          return Failure(h.exception);
        }
        m := h.value;
      }
      i := i + 1;
    }
    return Success(m);
  }

  /**
   * handleTypeDeclaration: collects the keywords and the name, puts the type
   * into `acc` and then what its body holds.
   */
  method HandleTypeDeclaration(parent: Parent, given: Option<TypeInfo>, td: Node, acc: map<string, TypeInfo>)
    returns (r: Try<map<string, TypeInfo>>)
    requires td.TypeDeclaration?
    ensures r == HandleDecl(parent, given, td, acc)
    decreases td, 2
  {
    var scanned := ScanTypeDeclaration(td);
    if scanned.Failure? {
      return Failure(scanned.exception);
    }
    var s := scanned.value;
    if s.identifier.None? {
      return Failure(AssertionFailed);
    }
    var typeName := FirstIdentifier(td.children);
    if typeName.None? {
      return Failure(NullPointer);
    }
    var base: TypeInfo;
    if parent.CompilationUnit? && given.Some? {
      if given.value.simpleName != typeName.value {
        return Failure(AssertionFailed);
      }
      base := given.value;
    } else {
      base := NewTypeInfo(parent, typeName.value);
    }
    var ti := base.(typeNature := s.typeNature, typeModifiers := base.typeModifiers + s.typeModifiers);
    var m := acc[ti.fullyQualifiedName := ti];
    if s.sub.Some? {
      var nested := RecursivelyFindTypes(EnclosingType(ti), given, s.sub.value);
      if nested.Failure? {
        return Failure(nested.exception);
      }
      m := m + nested.value;
    }
    return Success(m);
  }

  /** The loop over a declaration's children, with the inner loop over its modifiers. */
  method ScanTypeDeclaration(td: Node) returns (r: Try<Scan>)
    requires td.TypeDeclaration?
    ensures r == ScanChildren(td.annotationType, NOTHING_SEEN, td.children, 0)
  {
    var a := td.annotationType;
    var cs := td.children;
    var s := NOTHING_SEEN;
    var i := 0;
    while i < |cs|
      invariant i <= |cs|
      invariant ScanChildren(a, NOTHING_SEEN, cs, 0) == ScanChildren(a, s, cs, i)
      decreases |cs| - i
    {
      var child := cs[i];
      if child.Modifiers? {
        var ms := child.children;
        var j := 0;
        while j < |ms|
          invariant j <= |ms|
          invariant ScanChildren(a, NOTHING_SEEN, cs, 0) == ScanOn(a, ScanModifiers(a, s, ms, j), cs, i + 1)
          decreases |ms| - j
        {
          if ms[j].KeyWord? {
            var k := ScanKeyWord(a, s, ms[j].tokenType);
            if k.Failure? {
              return Failure(k.exception);
            }
            s := k.value;
          }
          j := j + 1;
        }
      } else if child.KeyWord? {
        var k := ScanKeyWord(a, s, child.tokenType);
        if k.Failure? {
          return Failure(k.exception);
        }
        s := k.value;
      } else if child.Identifier? {
        s := s.(identifier := Some(child.source));
      } else if child.Body? {
        return Success(s.(sub := Some(child)));
      }
      i := i + 1;
    }
    return Success(s);
  }
}
