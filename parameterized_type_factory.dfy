/**
 * Decoding of one JVM field descriptor or field signature (sections 4.3.2
 * and 4.7.9.1 of the Java Virtual Machine Specification) at the start of a
 * string, giving the parameterized type and the position just after it.
 *
 * The ghost functions below are the specification: they follow the decoder
 * branch by branch, with Java's exceptions, its `null` returns and its
 * non-terminating loops as explicit outcomes. The methods are the decoder
 * itself (loops over `[`, over dotted segments and over type arguments), each
 * proved to compute its specification.
 */
module ParameterizedTypeFactory {
  import opened JavaLang
  import opened JavaTypes
  import opened TypeParameterContext

  /** What a call of the decoder can end in. */
  datatype Parse<T> =
    | Done(value: T)
    | Null
    | Threw(exception: Exception)
    /** the decoder's do/while keeps repeating the same step (on a descriptor without its closing `;`) */
    | Loops

  datatype Result = Result(parameterizedType: ParameterizedType, nextPos: nat, typeNotFoundError: bool)

  /**
   * What the decoder depends on besides the string: the type-variable names
   * in scope, the fully qualified names the type map can load, and whether
   * unloadable class types become stubs.
   */
  datatype Env = Env(scope: map<string, TypeParameter>, loadable: set<string>, createStub: bool)

  /** The decoder as written, or with the primitive-array cursor corrected (see README, Findings). */
  datatype Variant = AsWritten | Corrected

  /** One step of the type-argument loop: the argument, and the cursor after it. */
  datatype Step = Step(result: ParameterizedType, more: bool, startPos: nat, endPos: nat, typeNotFoundError: bool)

  datatype TypeArguments = TypeArguments(types: seq<ParameterizedType>, endPos: nat, typeNotFoundError: bool)

  // ---------------------------------------------------------------------------
  // primitive codes

  /** The descriptor letter of each primitive type. */
  function Descriptor(p: Primitive): char
  {
    match p
    case Byte => 'B' case Char => 'C' case Double => 'D' case Float => 'F' case Int => 'I'
    case Long => 'J' case Short => 'S' case Void => 'V' case Boolean => 'Z'
  }

  /** The primitive type a descriptor letter stands for; None (the decoder throws) for any other char. */
  function Primitive(c: char): (r: Option<Primitive>)
    ensures r.Some? <==> c in "BCDFIJSVZ"
    ensures r.Some? ==> Descriptor(r.value) == c
  {
    match c
    case 'B' => Some(Byte) case 'C' => Some(Char) case 'D' => Some(Double) case 'F' => Some(Float)
    case 'I' => Some(Int) case 'J' => Some(Long) case 'S' => Some(Short) case 'V' => Some(Void)
    case 'Z' => Some(Boolean)
    case _ => None
  }

  /** Each descriptor letter decodes to its own primitive, and is none of the other leading characters. */
  lemma {:induction false} PrimitiveOfDescriptor(p: Primitive)
    ensures Primitive(Descriptor(p)) == Some(p)
    ensures Descriptor(p) !in "*+-[LT>"
  {
  }

  // ---------------------------------------------------------------------------
  // specification

  function WildcardMark(c: char): Wildcard
  {
    if c == '+' then Extends else if c == '-' then Super else NoWildcard
  }

  /** The number of consecutive `[` starting at `pos`. */
  function Brackets(sig: string, pos: nat): (n: nat)
    ensures pos + n <= |sig| || n == 0
    decreases |sig| - pos
  {
    if pos < |sig| && sig[pos] == '[' then 1 + Brackets(sig, pos + 1) else 0
  }

  /** The StringBuilder `path` after a segment is appended: `$` separates segments once the path is non-empty. */
  function AppendSegment(path: string, segment: string): string
  {
    (if |path| > 0 then path + "$" else path) + segment
  }

  /** The package and simple name of a stub: the fully qualified name split at its last dot. */
  function StubFor(fqn: string): TypeInfo
  {
    var lastDot := LastIndexOf(fqn, '.');
    if lastDot < 0 then Stub("", fqn) else Stub(fqn[..lastDot], fqn[lastDot + 1..])
  }

  /** The end of normalType: look the name up, or make a stub, or give up with null. */
  function ClassResult(env: Env, arrays: nat, wildcard: Wildcard, path: string, args: seq<ParameterizedType>,
                       tnf: bool, semiColon: int): (o: Parse<Result>)
    requires semiColon >= -1
    ensures o.Done? ==> o.value.nextPos == semiColon + 1
  {
    var fqn := FqnOfPath(path);
    if fqn in env.loadable then Done(Result(ClassType(Loaded(fqn), arrays, wildcard, args), semiColon + 1, tnf))
    else if env.createStub then Done(Result(ClassType(StubFor(fqn), arrays, wildcard, args), semiColon + 1, tnf))
    else Null
  }

  /** ParameterizedTypeFactory.from on `sig`. */
  ghost function TypeFrom(env: Env, v: Variant, sig: string): (o: Parse<Result>)
    ensures o.Done? ==> o.value.nextPos <= |sig|
    decreases |sig|, 3, 1
  {
    if |sig| == 0 then Threw(IndexOutOfBounds)
    else if sig[0] == '*' then Done(Result(UnboundWildcard, 1, false))
    else
      var wildcard := WildcardMark(sig[0]);
      var pos: nat := if wildcard == NoWildcard then 0 else 1;
      var arrays := Brackets(sig, pos);
      var first := pos + arrays;
      if first >= |sig| then Threw(IndexOutOfBounds)
      else TypeAt(env, v, sig, wildcard, arrays, first)
  }

  /** The rest of `from` once the wildcard mark and the array brackets before `first` are read. */
  ghost function TypeAt(env: Env, v: Variant, sig: string, wildcard: Wildcard, arrays: nat, first: nat)
    : (o: Parse<Result>)
    requires arrays <= first < |sig|
    ensures o.Done? ==> o.value.nextPos <= |sig|
    decreases |sig|, 3, 0
  {
    if sig[first] == 'L' then SegmentsFrom(env, v, sig, arrays, wildcard, first + 1, "", [], false)
    else if sig[first] == 'T' then
      var semiColon := IndexOf(sig, ';', 0);
      if semiColon < first + 1 then Threw(IndexOutOfBounds)
      else
        var name := sig[first + 1..semiColon];
        if name in env.scope then Done(Result(TypeVariable(env.scope[name], arrays, wildcard), semiColon + 1, false))
        else Done(Result(ObjectType, semiColon + 1, true))
    else
      match Primitive(sig[first])
      case None => Threw(RuntimeError("Char " + [sig[first]] + " does NOT represent a primitive!"))
      case Some(p) =>
        if v == Corrected then Done(Result(PrimitiveType(p, arrays, wildcard), first + 1, false))
        else if arrays > 0 then Done(Result(PrimitiveType(p, arrays, NoWildcard), arrays + 1, false))
        else Done(Result(PrimitiveType(p, 0, NoWildcard), 1, false))
  }

  /** One iteration of normalType's `while (haveDot)` loop, starting at `start`, and the rest of the loop. */
  ghost function SegmentsFrom(env: Env, v: Variant, sig: string, arrays: nat, wildcard: Wildcard, start: nat,
                              path: string, args: seq<ParameterizedType>, tnf: bool): (o: Parse<Result>)
    requires start <= |sig|
    ensures o.Done? ==> o.value.nextPos <= |sig|
    decreases |sig|, 2, 2 * (|sig| - start) + 1
  {
    var semiColon := IndexOf(sig, ';', start);
    var openGenerics := IndexOf(sig, '<', start);
    if openGenerics >= 0 && openGenerics < semiColon then
      AfterArguments(env, v, sig, arrays, wildcard, start, openGenerics, path, args, tnf,
                     ArgumentsFrom(env, v, sig, openGenerics + 1, [], false))
    else PlainSegment(env, v, sig, arrays, wildcard, start, path, args, tnf)
  }

  /** The rest of a segment without type arguments: up to the next `.`, or up to the `;` that ends the name. */
  ghost function PlainSegment(env: Env, v: Variant, sig: string, arrays: nat, wildcard: Wildcard, start: nat,
                              path: string, args: seq<ParameterizedType>, tnf: bool): (o: Parse<Result>)
    requires start <= |sig|
    ensures o.Done? ==> o.value.nextPos <= |sig|
    decreases |sig|, 2, 2 * (|sig| - start)
  {
    var semiColon := IndexOf(sig, ';', start);
    var dot := IndexOf(sig, '.', start);
    if dot >= 0 && dot < semiColon then
      SegmentsFrom(env, v, sig, arrays, wildcard, dot + 1, AppendSegment(path, sig[start..dot]), args, tnf)
    else if semiColon < start then Threw(IndexOutOfBounds)
    else ClassResult(env, arrays, wildcard, AppendSegment(path, sig[start..semiColon]), args, tnf, semiColon)
  }

  /** The rest of a segment with type arguments, once they have been parsed into `arguments`. */
  ghost function AfterArguments(env: Env, v: Variant, sig: string, arrays: nat, wildcard: Wildcard, start: nat,
                                openGenerics: nat, path: string, args: seq<ParameterizedType>, tnf: bool,
                                arguments: Parse<TypeArguments>): (o: Parse<Result>)
    requires start <= openGenerics < |sig|
    requires arguments.Done? ==> openGenerics < arguments.value.endPos <= |sig|
    ensures o.Done? ==> o.value.nextPos <= |sig|
    decreases |sig|, 2, 2 * (|sig| - openGenerics)
  {
    match arguments
    case Null => Null
    case Threw(e) => Threw(e)
    case Loops => Loops
    case Done(a) =>
      var path' := AppendSegment(path, sig[start..openGenerics]);
      if a.endPos < |sig| && sig[a.endPos] == '.' then
        SegmentsFrom(env, v, sig, arrays, wildcard, a.endPos + 1, path', args + a.types, tnf || a.typeNotFoundError)
      else
        ClassResult(env, arrays, wildcard, path', args + a.types, tnf || a.typeNotFoundError, IndexOf(sig, ';', a.endPos))
  }

  /** iterativelyParseTypes: one type argument at `startPos`, then `>` or the next argument. */
  ghost function ArgStep(env: Env, v: Variant, sig: string, startPos: nat, tnf: bool): (o: Parse<Step>)
    requires 1 <= startPos <= |sig|
    ensures o.Done? ==> o.value.more ==> startPos <= o.value.startPos < |sig|
    ensures o.Done? ==> !o.value.more ==> startPos < o.value.endPos <= |sig|
    decreases |sig|, 0, 0
  {
    match TypeFrom(env, v, sig[startPos..])
    case Null => Null
    case Threw(e) => Threw(e)
    case Loops => Loops
    case Done(r) =>
      var end := startPos + r.nextPos;
      if end >= |sig| then Threw(IndexOutOfBounds)
      else if sig[end] == '>' then Done(Step(r.parameterizedType, false, 0, end + 1, tnf || r.typeNotFoundError))
      else Done(Step(r.parameterizedType, true, end, 0, tnf || r.typeNotFoundError))
  }

  /** The do/while loop over type arguments, from `startPos` until `>`, collecting them in order. */
  ghost function ArgumentsFrom(env: Env, v: Variant, sig: string, startPos: nat,
                               acc: seq<ParameterizedType>, tnf: bool): (o: Parse<TypeArguments>)
    requires 1 <= startPos <= |sig|
    ensures o.Done? ==> startPos < o.value.endPos <= |sig|
    decreases |sig|, 1, |sig| - startPos
  {
    match ArgStep(env, v, sig, startPos, tnf)
    case Null => Null
    case Threw(e) => Threw(e)
    case Loops => Loops
    case Done(s) =>
      if !s.more then Done(TypeArguments(acc + [s.result], s.endPos, s.typeNotFoundError))
      else if s.startPos == startPos then Loops
      else ArgumentsFrom(env, v, sig, s.startPos, acc + [s.result], s.typeNotFoundError)
  }

  /** SegmentsFrom unfolded once, for a segment with type arguments. */
  lemma {:induction false} SegmentsWithGenerics(env: Env, sig: string, arrays: nat, wildcard: Wildcard, start: nat,
                             path: string, args: seq<ParameterizedType>, tnf: bool)
    requires start <= |sig|
    requires 0 <= IndexOf(sig, '<', start) < IndexOf(sig, ';', start)
    ensures var openGenerics := IndexOf(sig, '<', start);
      SegmentsFrom(env, Corrected, sig, arrays, wildcard, start, path, args, tnf)
      == AfterArguments(env, Corrected, sig, arrays, wildcard, start, openGenerics, path, args, tnf,
                        ArgumentsFrom(env, Corrected, sig, openGenerics + 1, [], false))
  {
  }

  /** SegmentsFrom unfolded once, for a segment without type arguments. */
  lemma {:induction false} SegmentsWithoutGenerics(env: Env, sig: string, arrays: nat, wildcard: Wildcard, start: nat,
                                path: string, args: seq<ParameterizedType>, tnf: bool)
    requires start <= |sig|
    requires !(0 <= IndexOf(sig, '<', start) < IndexOf(sig, ';', start))
    ensures SegmentsFrom(env, Corrected, sig, arrays, wildcard, start, path, args, tnf)
         == PlainSegment(env, Corrected, sig, arrays, wildcard, start, path, args, tnf)
  {
  }

  // ---------------------------------------------------------------------------
  // the decoder

  ghost function EnvOf(ctx: TypeParameterContext, loadable: set<string>, createStub: bool): Env
    requires ctx.Valid()
    reads ctx, ctx.Repr
  {
    Env(ctx.Bindings(), loadable, createStub)
  }

  method From(ctx: TypeParameterContext, loadable: set<string>, signature: string, createStub: bool)
    returns (o: Parse<Result>)
    requires ctx.Valid()
    ensures o == TypeFrom(EnvOf(ctx, loadable, createStub), Corrected, signature)
    decreases |signature|, 3, 1
  {
    ghost var env := EnvOf(ctx, loadable, createStub);
    if |signature| == 0 { return Threw(IndexOutOfBounds); }
    var firstChar := signature[0];
    if firstChar == '*' { return Done(Result(UnboundWildcard, 1, false)); }
    var firstCharPos := 0;
    var wildCard := NoWildcard;
    if firstChar == '+' || firstChar == '-' {
      wildCard := if firstChar == '+' then Extends else Super;
      firstCharPos := 1;
      if |signature| <= 1 { return Threw(IndexOutOfBounds); }
      firstChar := signature[1];
    }
    ghost var pos := firstCharPos;
    var arrays := 0;
    while firstChar == '['
      invariant firstCharPos == pos + arrays < |signature| && firstChar == signature[firstCharPos]
      invariant Brackets(signature, pos) == arrays + Brackets(signature, firstCharPos)
      decreases |signature| - firstCharPos
    {
      arrays := arrays + 1;
      firstCharPos := firstCharPos + 1;
      if firstCharPos >= |signature| { return Threw(IndexOutOfBounds); }
      firstChar := signature[firstCharPos];
    }
    TypeFromPrefix(env, signature, wildCard, arrays, firstCharPos);
    if firstChar == 'L' {
      o := NormalType(ctx, loadable, signature, arrays, wildCard, firstCharPos, createStub);
      return;
    }
    if firstChar == 'T' {
      var semiColon := IndexOf(signature, ';', 0);
      if semiColon < firstCharPos + 1 { return Threw(IndexOutOfBounds); }
      var typeParamName := signature[firstCharPos + 1..semiColon];
      var namedType := ctx.Get(typeParamName);
      if namedType.None? {
        return Done(Result(ObjectType, semiColon + 1, true));
      }
      return Done(Result(TypeVariable(namedType.value, arrays, wildCard), semiColon + 1, false));
    }
    var primitive := Primitive(firstChar);
    if primitive.None? {
      return Threw(RuntimeError("Char " + [firstChar] + " does NOT represent a primitive!"));
    }
    return Done(Result(PrimitiveType(primitive.value, arrays, wildCard), firstCharPos + 1, false));
  }

  /** Once the wildcard mark and the brackets are read, `from` goes on with the character at `first`. */
  lemma {:induction false} TypeFromPrefix(env: Env, sig: string, wildcard: Wildcard, arrays: nat, first: nat)
    requires 0 < |sig| && sig[0] != '*' && wildcard == WildcardMark(sig[0])
    requires first < |sig| && first == (if wildcard == NoWildcard then 0 else 1) + arrays
    requires Brackets(sig, if wildcard == NoWildcard then 0 else 1) == arrays
    ensures TypeFrom(env, Corrected, sig) == TypeAt(env, Corrected, sig, wildcard, arrays, first)
  {
  }

  /** normalType: the `while (haveDot)` loop over the segments of the class name, then the type lookup. */
  method NormalType(ctx: TypeParameterContext, loadable: set<string>, signature: string, arrays: nat,
                    wildCard: Wildcard, firstCharIndex: nat, createStub: bool) returns (o: Parse<Result>)
    requires ctx.Valid() && firstCharIndex < |signature|
    ensures o == SegmentsFrom(EnvOf(ctx, loadable, createStub), Corrected, signature, arrays, wildCard,
                              firstCharIndex + 1, "", [], false)
    decreases |signature|, 2, 2 * (|signature| - firstCharIndex) + 2
  {
    ghost var env := EnvOf(ctx, loadable, createStub);
    ghost var goal := SegmentsFrom(env, Corrected, signature, arrays, wildCard, firstCharIndex + 1, "", [], false);
    var path := "";
    var semiColon := -1;
    var start := firstCharIndex + 1;
    var typeParameters: seq<ParameterizedType> := [];
    var haveDot := true;
    var typeNotFoundError := false;
    while haveDot
      invariant firstCharIndex < start <= |signature| && -1 <= semiColon < |signature|
      invariant haveDot ==> SegmentsFrom(env, Corrected, signature, arrays, wildCard, start, path, typeParameters,
                                         typeNotFoundError) == goal
      invariant !haveDot ==> ClassResult(env, arrays, wildCard, path, typeParameters, typeNotFoundError,
                                         semiColon) == goal
      decreases haveDot, |signature| - start
    {
      var stop, next, path', typeParameters', typeNotFoundError', haveDot', semiColon' :=
        ParseSegment(ctx, loadable, signature, arrays, wildCard, start, path, typeParameters, typeNotFoundError,
                     createStub);
      if stop.Some? { return stop.value; }
      start, path, typeParameters, typeNotFoundError, haveDot, semiColon :=
        next, path', typeParameters', typeNotFoundError', haveDot', semiColon';
    }
    var fqn := FqnOfPath(path);
    if fqn in loadable {
      return Done(Result(ClassType(Loaded(fqn), arrays, wildCard, typeParameters), semiColon + 1, typeNotFoundError));
    }
    if createStub {
      return Done(Result(ClassType(StubFor(fqn), arrays, wildCard, typeParameters), semiColon + 1, typeNotFoundError));
    }
    return Null;
  }

  /**
   * How one iteration of normalType's loop ends, against `here`, the outcome
   * the specification gives from the iteration's start: either the decoder
   * stops with `here`, or the loop goes on (`haveDot`) with the new cursor,
   * path and arguments, or it leaves the loop at the `;` in `semiColon`.
   */
  ghost predicate SegmentEnds(env: Env, sig: string, arrays: nat, wildcard: Wildcard, start: nat,
                              here: Parse<Result>, stop: Option<Parse<Result>>, next: nat, path: string,
                              args: seq<ParameterizedType>, tnf: bool, haveDot: bool, semiColon: int)
  {
    (stop.Some? ==> stop.value == here) &&
    (stop.None? ==>
       -1 <= semiColon < |sig| && (if haveDot then start < next <= |sig| else next == start) &&
       (haveDot ==> SegmentsFrom(env, Corrected, sig, arrays, wildcard, next, path, args, tnf) == here) &&
       (!haveDot ==> ClassResult(env, arrays, wildcard, path, args, tnf, semiColon) == here))
  }

  /**
   * One iteration of normalType's loop body: the segment starting at `start`,
   * with its type arguments if it has any.
   */
  method ParseSegment(ctx: TypeParameterContext, loadable: set<string>, signature: string, arrays: nat,
                      wildCard: Wildcard, start: nat, path: string, typeParameters: seq<ParameterizedType>,
                      typeNotFoundError: bool, createStub: bool)
    returns (stop: Option<Parse<Result>>, next: nat, path': string, typeParameters': seq<ParameterizedType>,
             typeNotFoundError': bool, haveDot: bool, semiColon: int)
    requires ctx.Valid() && start <= |signature|
    ensures var env := EnvOf(ctx, loadable, createStub);
      SegmentEnds(env, signature, arrays, wildCard, start,
                  SegmentsFrom(env, Corrected, signature, arrays, wildCard, start, path, typeParameters,
                               typeNotFoundError),
                  stop, next, path', typeParameters', typeNotFoundError', haveDot, semiColon)
    decreases |signature|, 2, 2 * (|signature| - start) + 1
  {
    ghost var env := EnvOf(ctx, loadable, createStub);
    semiColon := IndexOf(signature, ';', start);
    var openGenerics := IndexOf(signature, '<', start);
    var haveGenerics := openGenerics >= 0 && openGenerics < semiColon;
    if haveGenerics {
      SegmentsWithGenerics(env, signature, arrays, wildCard, start, path, typeParameters, typeNotFoundError);
      stop, next, path', typeParameters', typeNotFoundError', haveDot, semiColon :=
        ParseArgumentsSegment(ctx, loadable, signature, arrays, wildCard, start, openGenerics, path, typeParameters,
                              typeNotFoundError, createStub);
    } else {
      SegmentsWithoutGenerics(env, signature, arrays, wildCard, start, path, typeParameters, typeNotFoundError);
      stop, next, path', typeParameters', typeNotFoundError', haveDot, semiColon :=
        ParsePlainSegment(ctx, loadable, signature, arrays, wildCard, start, path, typeParameters,
                          typeNotFoundError, createStub);
    }
  }

  /** The plain branch of the loop body: the segment up to the next `.`, or up to the `;`. */
  method ParsePlainSegment(ctx: TypeParameterContext, loadable: set<string>, signature: string, arrays: nat,
                           wildCard: Wildcard, start: nat, path: string, typeParameters: seq<ParameterizedType>,
                           typeNotFoundError: bool, createStub: bool)
    returns (stop: Option<Parse<Result>>, next: nat, path': string, typeParameters': seq<ParameterizedType>,
             typeNotFoundError': bool, haveDot: bool, semiColon: int)
    requires ctx.Valid() && start <= |signature|
    ensures var env := EnvOf(ctx, loadable, createStub);
      SegmentEnds(env, signature, arrays, wildCard, start,
                  PlainSegment(env, Corrected, signature, arrays, wildCard, start, path, typeParameters,
                               typeNotFoundError),
                  stop, next, path', typeParameters', typeNotFoundError', haveDot, semiColon)
  {
    stop, next, path', typeParameters', typeNotFoundError' := None, start, path, typeParameters, typeNotFoundError;
    semiColon := IndexOf(signature, ';', start);
    var dot := IndexOf(signature, '.', start);
    haveDot := dot >= 0 && dot < semiColon;
    if haveDot { next := dot + 1; }
    var endOfTypeInfo := if haveDot then dot else semiColon;
    if endOfTypeInfo < start {
      stop, haveDot := Some(Threw(IndexOutOfBounds)), false;
      return;
    }
    path' := AppendSegment(path, signature[start..endOfTypeInfo]);
  }

  /** The generic branch of the loop body: the type arguments after `<`, then `.` or the closing `;`. */
  method ParseArgumentsSegment(ctx: TypeParameterContext, loadable: set<string>, signature: string, arrays: nat,
                               wildCard: Wildcard, start: nat, openGenerics: nat, path: string,
                               typeParameters: seq<ParameterizedType>, typeNotFoundError: bool, createStub: bool)
    returns (stop: Option<Parse<Result>>, next: nat, path': string, typeParameters': seq<ParameterizedType>,
             typeNotFoundError': bool, haveDot: bool, semiColon: int)
    requires ctx.Valid() && start <= openGenerics < |signature|
    ensures var env := EnvOf(ctx, loadable, createStub);
      SegmentEnds(env, signature, arrays, wildCard, start,
                  AfterArguments(env, Corrected, signature, arrays, wildCard, start, openGenerics, path,
                                 typeParameters, typeNotFoundError,
                                 ArgumentsFrom(env, Corrected, signature, openGenerics + 1, [], false)),
                  stop, next, path', typeParameters', typeNotFoundError', haveDot, semiColon)
    decreases |signature|, 2, 2 * (|signature| - openGenerics)
  {
    var arguments := ParseTypeArguments(ctx, loadable, signature, openGenerics + 1, createStub);
    stop, next, path', typeParameters', typeNotFoundError', haveDot, semiColon :=
      None, start, path, typeParameters, typeNotFoundError, false, -1;
    match arguments {
      case Null => stop := Some(Null);
      case Threw(e) => stop := Some(Threw(e));
      case Loops => stop := Some(Loops);
      case Done(a) =>
        typeParameters' := typeParameters + a.types;
        typeNotFoundError' := typeNotFoundError || a.typeNotFoundError;
        haveDot := a.endPos < |signature| && signature[a.endPos] == '.';
        if haveDot { next := a.endPos + 1; }
        semiColon := IndexOf(signature, ';', a.endPos);
        path' := AppendSegment(path, signature[start..openGenerics]);
        AfterArgumentsEnds(EnvOf(ctx, loadable, createStub), signature, arrays, wildCard, start, openGenerics, path,
                           typeParameters, typeNotFoundError, arguments,
                           next, path', typeParameters', typeNotFoundError', haveDot, semiColon);
    }
  }

  /** Once the arguments are read, the segment goes on after a `.` or ends at the next `;`. */
  lemma {:induction false} AfterArgumentsEnds(env: Env, sig: string, arrays: nat, wildcard: Wildcard, start: nat,
                                              openGenerics: nat, path: string, args: seq<ParameterizedType>,
                                              tnf: bool, arguments: Parse<TypeArguments>, next: nat, path': string,
                                              args': seq<ParameterizedType>, tnf': bool, haveDot: bool,
                                              semiColon: int)
    requires start <= openGenerics < |sig| && arguments.Done?
    requires openGenerics < arguments.value.endPos <= |sig|
    requires path' == AppendSegment(path, sig[start..openGenerics])
    requires args' == args + arguments.value.types && tnf' == (tnf || arguments.value.typeNotFoundError)
    requires haveDot == (arguments.value.endPos < |sig| && sig[arguments.value.endPos] == '.')
    requires next == if haveDot then arguments.value.endPos + 1 else start
    requires semiColon == IndexOf(sig, ';', arguments.value.endPos)
    ensures SegmentEnds(env, sig, arrays, wildcard, start,
                        AfterArguments(env, Corrected, sig, arrays, wildcard, start, openGenerics, path, args, tnf,
                                       arguments),
                        None, next, path', args', tnf', haveDot, semiColon)
  {
  }

  /** normalType's do/while over iterativelyParseTypes, from just after `<`. */
  method ParseTypeArguments(ctx: TypeParameterContext, loadable: set<string>, signature: string, firstPos: nat,
                            createStub: bool) returns (o: Parse<TypeArguments>)
    requires ctx.Valid() && 1 <= firstPos <= |signature|
    ensures o == ArgumentsFrom(EnvOf(ctx, loadable, createStub), Corrected, signature, firstPos, [], false)
    decreases |signature|, 1, |signature| - firstPos + 1
  {
    ghost var env := EnvOf(ctx, loadable, createStub);
    ghost var goal := ArgumentsFrom(env, Corrected, signature, firstPos, [], false);
    var startPos := firstPos;
    var typeParameters: seq<ParameterizedType> := [];
    var typeNotFoundError := false;
    while true
      invariant 1 <= startPos <= |signature|
      invariant ArgumentsFrom(env, Corrected, signature, startPos, typeParameters, typeNotFoundError) == goal
      decreases |signature| - startPos
    {
      var step := IterativelyParseTypes(ctx, loadable, signature, startPos, typeNotFoundError, createStub);
      match step {
        case Null => return Null;
        case Threw(e) => return Threw(e);
        case Loops => return Loops;
        case Done(s) =>
          typeParameters := typeParameters + [s.result];
          typeNotFoundError := s.typeNotFoundError;
          if !s.more { return Done(TypeArguments(typeParameters, s.endPos, typeNotFoundError)); }
          if s.startPos == startPos { return Loops; }
          startPos := s.startPos;
      }
    }
  }

  method IterativelyParseTypes(ctx: TypeParameterContext, loadable: set<string>, signature: string, startPos: nat,
                               typeNotFoundError: bool, createStub: bool) returns (o: Parse<Step>)
    requires ctx.Valid() && 1 <= startPos <= |signature|
    ensures o == ArgStep(EnvOf(ctx, loadable, createStub), Corrected, signature, startPos, typeNotFoundError)
    decreases |signature|, 0, 0
  {
    var result := From(ctx, loadable, signature[startPos..], createStub);
    match result {
      case Null => return Null;
      case Threw(e) => return Threw(e);
      case Loops => return Loops;
      case Done(r) =>
        var end := startPos + r.nextPos;
        if end >= |signature| { return Threw(IndexOutOfBounds); }
        var tnf := typeNotFoundError || r.typeNotFoundError;
        if signature[end] == '>' {
          return Done(Step(r.parameterizedType, false, 0, end + 1, tnf));
        }
        return Done(Step(r.parameterizedType, true, end, 0, tnf));
    }
  }
}
