/**
 * An encoder for parameterized types in the signature syntax of section
 * 4.7.9.1 of the Java Virtual Machine Specification. It is the reference the
 * decoder is proved against: decoding an encoded type, whatever follows it,
 * gives the type back together with the position just after its encoding.
 */
module SignatureEncoding {
  import opened JavaLang
  import opened JavaTypes
  import opened ParameterizedTypeFactory

  function Repeat(c: char, n: nat): (r: string)
    ensures |r| == n && forall k :: 0 <= k < n ==> r[k] == c
  {
    if n == 0 then "" else [c] + Repeat(c, n - 1)
  }

  function Mark(w: Wildcard): string
  {
    match w
    case NoWildcard => ""
    case Extends => "+"
    case Super => "-"
  }

  /** The wildcard mark and the array brackets written in front of a type. */
  function Prefix(w: Wildcard, arrays: nat): (r: string)
    ensures |r| == |Mark(w)| + arrays
  {
    Mark(w) + Repeat('[', arrays)
  }

  /** The internal form of a binary class name: `java.util.List` becomes `java/util/List`. */
  function InternalName(fqn: string): string
  {
    ReplaceChars(fqn, {'.'}, '/')
  }

  function Encode(pt: ParameterizedType): (r: string)
    ensures |r| >= 1
    decreases pt
  {
    match pt
    case UnboundWildcard => "*"
    case PrimitiveType(p, n, w) => Prefix(w, n) + [Descriptor(p)]
    case ClassType(t, n, w, ps) =>
      Prefix(w, n) + "L" + InternalName(FullyQualifiedName(t))
      + (if ps == [] then "" else "<" + EncodeAll(ps) + ">") + ";"
    case TypeVariable(tp, n, w) => Prefix(w, n) + "T" + tp.name + ";"
  }

  /** Type arguments written one after the other, without separators. */
  function EncodeAll(ps: seq<ParameterizedType>): string
    decreases ps
  {
    if ps == [] then "" else Encode(ps[0]) + EncodeAll(ps[1..])
  }

  /** A class name the decoder can give back: no character that ends a segment or that it rewrites. */
  predicate ClassNameChars(fqn: string)
  {
    forall k :: 0 <= k < |fqn| ==> fqn[k] != ';' && fqn[k] != '<' && fqn[k] != '/' && fqn[k] != '$'
  }

  /**
   * The types an encoding determines in `env`: class types are loadable,
   * type variables are in scope under their own name, and no name contains
   * the `;` that would end it early.
   */
  predicate WellFormed(env: Env, pt: ParameterizedType)
    decreases pt
  {
    match pt
    case UnboundWildcard => true
    case PrimitiveType(_, _, _) => true
    case ClassType(t, _, _, ps) =>
      t.Loaded? && t.fqn in env.loadable && ClassNameChars(t.fqn) &&
      AllWellFormed(env, ps)
    case TypeVariable(tp, _, _) => ';' !in tp.name && tp.name in env.scope && env.scope[tp.name] == tp
  }

  predicate AllWellFormed(env: Env, ps: seq<ParameterizedType>)
    decreases ps
  {
    ps == [] || (WellFormed(env, ps[0]) && AllWellFormed(env, ps[1..]))
  }

  // ---------------------------------------------------------------------------
  // round trip

  /** The class name survives the trip to its internal form and back through `[/$]` -> `.`. */
  lemma {:induction false} FqnOfInternalName(fqn: string)
    requires ClassNameChars(fqn)
    ensures FqnOfPath(InternalName(fqn)) == fqn
    ensures forall k :: 0 <= k < |InternalName(fqn)| ==>
      InternalName(fqn)[k] != ';' && InternalName(fqn)[k] != '<' && InternalName(fqn)[k] != '.'
  {
    var path := InternalName(fqn);
    ReplaceCharsAt(fqn, {'.'}, '/');
    ReplaceCharsAt(path, {'/', '$'}, '.');
  }

  lemma {:induction false} BracketsRun(sig: string, pos: nat, n: nat)
    requires pos + n < |sig| && sig[pos + n] != '['
    requires forall k :: pos <= k < pos + n ==> sig[k] == '['
    ensures Brackets(sig, pos) == n
    decreases n
  {
    if n > 0 {
      BracketsRun(sig, pos + 1, n - 1);
    }
  }

  /** Reading the prefix of an encoding: what follows is decoded with that wildcard and array depth. */
  lemma {:induction false} PrefixRead(env: Env, v: Variant, sig: string, w: Wildcard, n: nat)
    requires |Prefix(w, n)| < |sig| && sig[..|Prefix(w, n)|] == Prefix(w, n)
    requires var c := sig[|Prefix(w, n)|]; c != '*' && c != '+' && c != '-' && c != '['
    ensures TypeFrom(env, v, sig) == TypeAt(env, v, sig, w, n, |Prefix(w, n)|)
  {
    var m, first := |Mark(w)|, |Prefix(w, n)|;
    assert forall k :: 0 <= k < first ==> sig[k] == Prefix(w, n)[k] by {
      forall k | 0 <= k < first ensures sig[k] == Prefix(w, n)[k] {
        assert sig[..first][k] == sig[k];
      }
    }
    assert forall k :: m <= k < first ==> sig[k] == '[' by {
      forall k | m <= k < first ensures sig[k] == '[' {
        assert Prefix(w, n)[k] == Repeat('[', n)[k - m];
      }
    }
    assert sig[0] != '*';
    assert WildcardMark(sig[0]) == w;
    BracketsRun(sig, m, n);
  }

  /** Decoding an encoded type gives the type back, and the position just past its encoding. */
  lemma {:induction false} DecodeEncode(env: Env, pt: ParameterizedType, rest: string)
    requires WellFormed(env, pt)
    ensures TypeFrom(env, Corrected, Encode(pt) + rest) == Done(Result(pt, |Encode(pt)|, false))
    decreases pt, 3
  {
    match pt
    case UnboundWildcard =>
    case PrimitiveType(p, n, w) => DecodePrimitive(env, p, n, w, rest);
    case TypeVariable(tp, n, w) => DecodeTypeVariable(env, tp, n, w, rest);
    case ClassType(t, n, w, ps) => DecodeClass(env, pt, rest);
  }

  lemma {:induction false} DecodePrimitive(env: Env, p: Primitive, n: nat, w: Wildcard, rest: string)
    ensures var pt := PrimitiveType(p, n, w);
      TypeFrom(env, Corrected, Encode(pt) + rest) == Done(Result(pt, |Encode(pt)|, false))
  {
    var sig := Encode(PrimitiveType(p, n, w)) + rest;
    var pre := Prefix(w, n);
    assert sig == pre + ([Descriptor(p)] + rest);
    assert sig[..|pre|] == pre;
    assert sig[|pre|] == Descriptor(p);
    PrimitiveOfDescriptor(p);
    PrefixRead(env, Corrected, sig, w, n);
  }

  lemma {:induction false} DecodeTypeVariable(env: Env, tp: TypeParameter, n: nat, w: Wildcard, rest: string)
    requires WellFormed(env, TypeVariable(tp, n, w))
    ensures var pt := TypeVariable(tp, n, w);
      TypeFrom(env, Corrected, Encode(pt) + rest) == Done(Result(pt, |Encode(pt)|, false))
  {
    var pre := Prefix(w, n);
    var encoded := pre + "T" + tp.name + ";";
    assert Encode(TypeVariable(tp, n, w)) == encoded;
    var sig := encoded + rest;
    PrefixChars(w, n);
    TypeVariableLayout(sig, pre, tp.name, rest);
    PrefixRead(env, Corrected, sig, w, n);
    assert TypeAt(env, Corrected, sig, w, n, |pre|) == Done(Result(TypeVariable(tp, n, w), |encoded|, false));
  }

  /** No `;` in the prefix of an encoding. */
  lemma {:induction false} PrefixChars(w: Wildcard, n: nat)
    ensures forall k :: 0 <= k < |Prefix(w, n)| ==> Prefix(w, n)[k] != ';'
  {
    forall k | 0 <= k < |Prefix(w, n)| ensures Prefix(w, n)[k] != ';' {
      if k >= |Mark(w)| { assert Prefix(w, n)[k] == Repeat('[', n)[k - |Mark(w)|]; }
    }
  }

  /** Where the name of an encoded type variable sits, and that the first `;` ends it. */
  lemma {:induction false} TypeVariableLayout(sig: string, pre: string, name: string, rest: string)
    requires sig == pre + "T" + name + ";" + rest
    requires forall k :: 0 <= k < |pre| ==> pre[k] != ';'
    requires ';' !in name
    ensures var semi := |pre| + 1 + |name|;
      semi < |sig| && sig[..|pre|] == pre && sig[|pre|] == 'T' && sig[|pre| + 1..semi] == name &&
      IndexOf(sig, ';', 0) == semi
  {
    var first := |pre|;
    var semi := first + 1 + |name|;
    assert sig == pre + ("T" + name + ";" + rest);
    assert sig[..first] == pre;
    assert sig[first + 1..semi] == name;
    assert forall j :: 0 <= j < semi ==> sig[j] != ';' by {
      forall j | 0 <= j < semi ensures sig[j] != ';' {
        if j < first {
          assert sig[j] == sig[..first][j] == pre[j];
        } else if j > first {
          assert sig[j] == name[j - first - 1];
        }
      }
    }
    IndexOfSkip(sig, ';', 0, semi);
  }

  lemma {:induction false} DecodeClass(env: Env, pt: ParameterizedType, rest: string)
    requires pt.ClassType? && WellFormed(env, pt)
    ensures TypeFrom(env, Corrected, Encode(pt) + rest) == Done(Result(pt, |Encode(pt)|, false))
    decreases pt, 2
  {
    DecodeClassName(env, pt, rest);
    FqnOfInternalName(pt.typeInfo.fqn);
  }

  /**
   * A class type the type map cannot load decodes to a stub, split at the
   * last `.` of its name, when stubs are wanted, and to null otherwise.
   */
  lemma {:induction false} DecodeUnloadable(env: Env, fqn: string, n: nat, w: Wildcard,
                                            ps: seq<ParameterizedType>, rest: string)
    requires fqn !in env.loadable && ClassNameChars(fqn) && AllWellFormed(env, ps)
    ensures var sig := Encode(ClassType(Loaded(fqn), n, w, ps)) + rest;
      TypeFrom(env, Corrected, sig)
      == if env.createStub then Done(Result(ClassType(StubFor(fqn), n, w, ps), |sig| - |rest|, false)) else Null
  {
    DecodeClassName(env, ClassType(Loaded(fqn), n, w, ps), rest);
    FqnOfInternalName(fqn);
  }

  /**
   * An encoded class type whose arguments decode is read up to its `;` and
   * looked up by its name, whether or not that name is loadable.
   */
  lemma {:induction false} DecodeClassName(env: Env, pt: ParameterizedType, rest: string)
    requires pt.ClassType? && pt.typeInfo.Loaded? && ClassNameChars(pt.typeInfo.fqn)
    requires AllWellFormed(env, pt.parameters)
    ensures TypeFrom(env, Corrected, Encode(pt) + rest)
         == ClassResult(env, pt.arrays, pt.wildcard, InternalName(pt.typeInfo.fqn), pt.parameters, false,
                        |Encode(pt)| - 1)
    decreases pt, 1
  {
    var sig, start, path, semi := Encode(pt) + rest, |Prefix(pt.wildcard, pt.arrays)| + 1, InternalName(pt.typeInfo.fqn),
                                  |Encode(pt)| - 1;
    ClassSegments(env, pt, rest, sig, start, path, semi);
  }

  /** The wildcard mark and the brackets of an encoded class type are read, and then its `L`. */
  lemma {:induction false} ClassPrefix(env: Env, pt: ParameterizedType, rest: string, sig: string, start: nat,
                                       o: Parse<Result>)
    requires pt.ClassType? && sig == Encode(pt) + rest && start == |Prefix(pt.wildcard, pt.arrays)| + 1
    requires start <= |sig| && SegmentsFrom(env, Corrected, sig, pt.arrays, pt.wildcard, start, "", [], false) == o
    ensures TypeFrom(env, Corrected, sig) == o
  {
    ClassLayout(pt, rest);
    PrefixRead(env, Corrected, sig, pt.wildcard, pt.arrays);
  }

  /** The segments of an encoded class name, with its type arguments, end at its `;`. */
  lemma {:induction false} ClassSegments(env: Env, pt: ParameterizedType, rest: string, sig: string, start: nat,
                                         path: string, semi: int)
    requires pt.ClassType? && pt.typeInfo.Loaded? && ClassNameChars(pt.typeInfo.fqn)
    requires AllWellFormed(env, pt.parameters)
    requires sig == Encode(pt) + rest && start == |Prefix(pt.wildcard, pt.arrays)| + 1
    requires path == InternalName(pt.typeInfo.fqn) && semi == |Encode(pt)| - 1
    ensures TypeFrom(env, Corrected, sig) == ClassResult(env, pt.arrays, pt.wildcard, path, pt.parameters, false, semi)
    decreases pt, 0
  {
    FqnOfInternalName(pt.typeInfo.fqn);
    assert FullyQualifiedName(pt.typeInfo) == pt.typeInfo.fqn;
    ClassLayout(pt, rest);
    if pt.parameters == [] {
      ClassWithoutArguments(env, sig, pt.arrays, pt.wildcard, start, path, pt.parameters, semi);
    } else {
      ClassWithArguments(env, sig, pt.arrays, pt.wildcard, start, path, pt.parameters, rest, semi);
    }
    ClassPrefix(env, pt, rest, sig, start, ClassResult(env, pt.arrays, pt.wildcard, path, pt.parameters, false, semi));
  }

  /** Where the parts of an encoded class type sit in the string. */
  lemma {:induction false} ClassLayout(pt: ParameterizedType, rest: string)
    requires pt.ClassType?
    ensures var sig, pre, path := Encode(pt) + rest, Prefix(pt.wildcard, pt.arrays),
                                  InternalName(FullyQualifiedName(pt.typeInfo));
      var og := |pre| + 1 + |path|;
      og < |sig| && sig[..|pre|] == pre && sig[|pre|] == 'L' && sig[|pre| + 1..og] == path &&
      (pt.parameters == [] ==> sig[og] == ';' && |Encode(pt)| == og + 1) &&
      (pt.parameters != [] ==>
         sig[og] == '<' && sig[og + 1..] == EncodeAll(pt.parameters) + ">" + (";" + rest) &&
         |Encode(pt)| == og + 1 + |EncodeAll(pt.parameters)| + 2)
  {
    var pre, path := Prefix(pt.wildcard, pt.arrays), InternalName(FullyQualifiedName(pt.typeInfo));
    var ps := pt.parameters;
    if ps == [] {
      assert Encode(pt) == pre + "L" + path + ";";
      PlainClassLayout(Encode(pt) + rest, pre, path, rest);
    } else {
      assert Encode(pt) == pre + "L" + path + ("<" + EncodeAll(ps) + ">") + ";";
      GenericClassLayout(Encode(pt) + rest, pre, path, EncodeAll(ps), rest);
    }
  }

  lemma {:induction false} PlainClassLayout(sig: string, pre: string, path: string, rest: string)
    requires sig == pre + "L" + path + ";" + rest
    ensures var og := |pre| + 1 + |path|;
      og < |sig| && sig[..|pre|] == pre && sig[|pre|] == 'L' && sig[|pre| + 1..og] == path && sig[og] == ';' &&
      |sig| == og + 1 + |rest|
  {
    HeadLayout(sig, pre, path, ";" + rest);
  }

  lemma {:induction false} GenericClassLayout(sig: string, pre: string, path: string, args: string, rest: string)
    requires sig == pre + "L" + path + ("<" + args + ">") + ";" + rest
    ensures var og := |pre| + 1 + |path|;
      og < |sig| && sig[..|pre|] == pre && sig[|pre|] == 'L' && sig[|pre| + 1..og] == path && sig[og] == '<' &&
      sig[og + 1..] == args + ">" + (";" + rest) && |sig| == og + 1 + |args| + 2 + |rest|
  {
    var og := |pre| + 1 + |path|;
    assert sig == pre + "L" + path + ("<" + (args + ">" + (";" + rest)));
    HeadLayout(sig, pre, path, "<" + (args + ">" + (";" + rest)));
    assert sig[og + 1..] == sig[og..][1..];
  }

  lemma {:induction false} HeadLayout(sig: string, pre: string, path: string, after: string)
    requires sig == pre + "L" + path + after
    ensures sig[..|pre|] == pre && sig[|pre|] == 'L' && sig[|pre| + 1..|pre| + 1 + |path|] == path
    ensures sig[|pre| + 1 + |path|..] == after
  {
  }

  lemma {:induction false} ClassWithArguments(env: Env, sig: string, n: nat, w: Wildcard, start: nat, path: string,
                           ps: seq<ParameterizedType>, rest: string, semi: int)
    requires |ps| >= 1 && AllWellFormed(env, ps) && semi == start + |path| + 1 + |EncodeAll(ps)| + 1
    requires start + |path| < |sig| && sig[start + |path|] == '<'
    requires sig[start + |path| + 1..] == EncodeAll(ps) + ">" + (";" + rest)
    requires forall k :: 0 <= k < |path| ==> path[k] != ';' && path[k] != '<' && path[k] != '.'
    requires sig[start..start + |path|] == path
    ensures SegmentsFrom(env, Corrected, sig, n, w, start, "", [], false) == ClassResult(env, n, w, path, ps, false, semi)
    decreases ps, 4
  {
    var og := start + |path|;
    ArgumentsOfClass(env, sig, og, ps, rest);
    PathChars(sig, start, path);
    GenericIndices(sig, start, og, semi);
    FirstSegment(sig, start, path);
    GenericSegmentClose(env, sig, n, w, start, og, semi, path, ps);
  }

  /** The type arguments of a class type, read from just after its `<` up to the `>` before its `;`. */
  lemma {:induction false} ArgumentsOfClass(env: Env, sig: string, og: nat, ps: seq<ParameterizedType>, rest: string)
    requires og + 1 <= |sig| && |ps| >= 1 && AllWellFormed(env, ps)
    requires sig[og + 1..] == EncodeAll(ps) + ">" + (";" + rest)
    ensures og + 1 + |EncodeAll(ps)| + 1 < |sig| && sig[og + 1 + |EncodeAll(ps)| + 1] == ';'
    ensures ArgumentsFrom(env, Corrected, sig, og + 1, [], false)
         == Done(TypeArguments(ps, og + 1 + |EncodeAll(ps)| + 1, false))
    decreases ps, 3
  {
    CloseAfter(sig, og + 1, EncodeAll(ps), rest);
    EmptyAppend(ps);
    DecodeArguments(env, sig, og + 1, ps, [], ";" + rest, ps, og + 1 + |EncodeAll(ps)| + 1);
  }

  lemma {:induction false} CloseAfter(sig: string, pos: nat, args: string, rest: string)
    requires pos <= |sig| && sig[pos..] == args + ">" + (";" + rest)
    ensures pos + |args| + 1 < |sig| && sig[pos + |args| + 1] == ';'
  {
    assert sig[pos + |args| + 1] == sig[pos..][|args| + 1];
  }

  /** Where the first `<` and the first `;` after the start of a name without either character lie. */
  lemma {:induction false} GenericIndices(sig: string, start: nat, og: nat, semi: nat)
    requires start <= og < semi < |sig| && sig[og] == '<' && sig[semi] == ';'
    requires forall j :: start <= j < og ==> sig[j] != ';' && sig[j] != '<' && sig[j] != '.'
    ensures IndexOf(sig, '<', start) == og && og < IndexOf(sig, ';', start)
  {
    IndexOfSkip(sig, '<', start, og);
    IndexOfSkip(sig, ';', start, og + 1);
    IndexOfFirst(sig, ';', og + 1);
  }

  /** A segment whose type arguments end just before the `;` closes the class name. */
  lemma {:induction false} GenericSegmentClose(env: Env, sig: string, n: nat, w: Wildcard, start: nat, og: nat,
                                               semi: nat, path: string, ps: seq<ParameterizedType>)
    requires start <= og < semi < |sig| && sig[semi] == ';'
    requires IndexOf(sig, '<', start) == og && og < IndexOf(sig, ';', start)
    requires ArgumentsFrom(env, Corrected, sig, og + 1, [], false) == Done(TypeArguments(ps, semi, false))
    requires AppendSegment("", sig[start..og]) == path
    ensures SegmentsFrom(env, Corrected, sig, n, w, start, "", [], false) == ClassResult(env, n, w, path, ps, false, semi)
  {
    SegmentsWithGenerics(env, sig, n, w, start, "", [], false);
    AfterArgumentsClose(env, sig, n, w, start, og, "", [], false, TypeArguments(ps, semi, false));
    EmptyAppend(ps);
  }

  /** The characters of a name copied into the string at `start`. */
  lemma {:induction false} PathChars(sig: string, start: nat, path: string)
    requires start + |path| <= |sig| && sig[start..start + |path|] == path
    requires forall k :: 0 <= k < |path| ==> path[k] != ';' && path[k] != '<' && path[k] != '.'
    ensures forall j :: start <= j < start + |path| ==> sig[j] != ';' && sig[j] != '<' && sig[j] != '.'
  {
    forall j | start <= j < start + |path| ensures sig[j] != ';' && sig[j] != '<' && sig[j] != '.' {
      assert sig[j] == path[j - start];
    }
  }

  /** The path of a class name's first segment is the segment itself. */
  lemma {:induction false} FirstSegment(sig: string, start: nat, path: string)
    requires start + |path| <= |sig| && sig[start..start + |path|] == path
    ensures AppendSegment("", sig[start..start + |path|]) == path
  {
  }

  /** AfterArguments once the arguments end just before the `;` that closes the name. */
  lemma {:induction false} AfterArgumentsClose(env: Env, sig: string, arrays: nat, w: Wildcard, start: nat, openGenerics: nat,
                            path: string, args: seq<ParameterizedType>, tnf: bool, a: TypeArguments)
    requires start <= openGenerics < a.endPos < |sig| && sig[a.endPos] == ';'
    ensures AfterArguments(env, Corrected, sig, arrays, w, start, openGenerics, path, args, tnf, Done(a))
         == ClassResult(env, arrays, w, AppendSegment(path, sig[start..openGenerics]), args + a.types,
                        tnf || a.typeNotFoundError, a.endPos)
  {
    assert IndexOf(sig, ';', a.endPos) == a.endPos;
  }

  lemma {:induction false} ClassWithoutArguments(env: Env, sig: string, n: nat, w: Wildcard, start: nat, path: string,
                                                 ps: seq<ParameterizedType>, semi: int)
    requires ps == [] && semi == start + |path|
    requires start + |path| < |sig| && sig[start + |path|] == ';'
    requires forall k :: 0 <= k < |path| ==> path[k] != ';' && path[k] != '<' && path[k] != '.'
    requires sig[start..start + |path|] == path
    ensures SegmentsFrom(env, Corrected, sig, n, w, start, "", [], false) == ClassResult(env, n, w, path, ps, false, semi)
  {
    PathChars(sig, start, path);
    IndexOfSkip(sig, ';', start, semi);
    IndexOfSkip(sig, '<', start, semi + 1);
    IndexOfSkip(sig, '.', start, semi + 1);
    SegmentsWithoutGenerics(env, sig, n, w, start, "", [], false);
    PlainSegmentClose(env, sig, n, w, start, semi);
    FirstSegment(sig, start, path);
  }

  /** PlainSegment on the last segment of a name: the name closes at the `;`. */
  lemma {:induction false} PlainSegmentClose(env: Env, sig: string, n: nat, w: Wildcard, start: nat, semi: nat)
    requires start <= semi < |sig| && IndexOf(sig, ';', start) == semi
    requires !(0 <= IndexOf(sig, '.', start) < semi)
    ensures PlainSegment(env, Corrected, sig, n, w, start, "", [], false)
         == ClassResult(env, n, w, AppendSegment("", sig[start..semi]), [], false, semi)
  {
  }

  /** The encoded arguments `ps`, their closing `>` and then `tail` make up `sig` from `startPos` on. */
  ghost predicate ArgumentsAt(sig: string, startPos: nat, ps: seq<ParameterizedType>, tail: string)
  {
    startPos <= |sig| && sig[startPos..] == EncodeAll(ps) + ">" + tail
  }

  /**
   * The type-argument loop reads back a run of encoded arguments up to the
   * closing `>`: it ends with `all`, the arguments met before and these, just
   * after the `>`.
   */
  lemma {:induction false} DecodeArguments(env: Env, sig: string, startPos: nat, ps: seq<ParameterizedType>,
                                           acc: seq<ParameterizedType>, tail: string,
                                           all: seq<ParameterizedType>, endPos: nat)
    requires 1 <= startPos && |ps| >= 1 && ArgumentsAt(sig, startPos, ps, tail) && AllWellFormed(env, ps)
    requires all == acc + ps && endPos == startPos + |EncodeAll(ps)| + 1
    ensures ArgumentsFrom(env, Corrected, sig, startPos, acc, false) == Done(TypeArguments(all, endPos, false))
    decreases ps, 2
  {
    if |ps| == 1 {
      assert EncodeAll(ps) == Encode(ps[0]) by { assert ps[1..] == []; }
      DecodeLastArgument(env, sig, startPos, ps[0], acc, tail);
      AppendFirst(acc, ps);
    } else {
      DecodeFirstArgument(env, sig, startPos, ps, acc, tail, all, endPos);
    }
  }

  /** Several encoded arguments: the first one is read, then the loop goes on with the others. */
  lemma {:induction false} DecodeFirstArgument(env: Env, sig: string, startPos: nat, ps: seq<ParameterizedType>,
                                               acc: seq<ParameterizedType>, tail: string,
                                               all: seq<ParameterizedType>, endPos: nat)
    requires 1 <= startPos && |ps| >= 2 && ArgumentsAt(sig, startPos, ps, tail) && AllWellFormed(env, ps)
    requires all == acc + ps && endPos == startPos + |EncodeAll(ps)| + 1
    ensures ArgumentsFrom(env, Corrected, sig, startPos, acc, false) == Done(TypeArguments(all, endPos, false))
    decreases ps, 1
  {
    ArgumentsRest(sig, startPos, ps, tail);
    AppendFirst(acc, ps);
    DecodeArguments(env, sig, startPos + |Encode(ps[0])|, ps[1..], acc + [ps[0]], tail, all, endPos);
    FirstArgumentStep(env, sig, startPos, ps, acc, tail, Done(TypeArguments(all, endPos, false)));
  }

  /** The arguments after the first of several encoded ones, and where they start. */
  lemma {:induction false} ArgumentsRest(sig: string, startPos: nat, ps: seq<ParameterizedType>, tail: string)
    requires |ps| >= 2 && ArgumentsAt(sig, startPos, ps, tail)
    ensures ArgumentsAt(sig, startPos + |Encode(ps[0])|, ps[1..], tail)
    ensures |EncodeAll(ps)| == |Encode(ps[0])| + |EncodeAll(ps[1..])|
  {
    ArgumentsLayout(sig, startPos, ps, tail);
  }

  /** Reading the first of several encoded arguments leads to what the loop does with the others. */
  lemma {:induction false} FirstArgumentStep(env: Env, sig: string, startPos: nat, ps: seq<ParameterizedType>,
                                             acc: seq<ParameterizedType>, tail: string, a: Parse<TypeArguments>)
    requires 1 <= startPos && |ps| >= 2 && ArgumentsAt(sig, startPos, ps, tail) && AllWellFormed(env, ps)
    requires startPos + |Encode(ps[0])| <= |sig|
    requires ArgumentsFrom(env, Corrected, sig, startPos + |Encode(ps[0])|, acc + [ps[0]], false) == a
    ensures ArgumentsFrom(env, Corrected, sig, startPos, acc, false) == a
    decreases ps, 0
  {
    ArgumentsLayout(sig, startPos, ps, tail);
    DecodeArgument(env, sig, startPos, ps[0], acc, EncodeAll(ps[1..]) + ">" + tail);
  }

  /** An argument followed by another one: the loop goes on just after it. */
  lemma {:induction false} DecodeArgument(env: Env, sig: string, startPos: nat, p: ParameterizedType,
                                          acc: seq<ParameterizedType>, after: string)
    requires 1 <= startPos <= |sig| && WellFormed(env, p) && |after| >= 1 && after[0] != '>'
    requires sig[startPos..] == Encode(p) + after
    ensures startPos < startPos + |Encode(p)| <= |sig|
    ensures ArgumentsFrom(env, Corrected, sig, startPos, acc, false)
         == ArgumentsFrom(env, Corrected, sig, startPos + |Encode(p)|, acc + [p], false)
    decreases p, 5
  {
    ArgStepEncoded(env, sig, startPos, p, after);
    ArgumentsUnfold(env, sig, startPos, acc, Step(p, true, startPos + |Encode(p)|, 0, false));
  }

  lemma {:induction false} EmptyAppend<T>(ps: seq<T>)
    ensures [] + ps == ps
  {
  }

  /** Moving the first element of `ps` onto `acc` leaves the concatenation unchanged. */
  lemma {:induction false} AppendFirst<T>(acc: seq<T>, ps: seq<T>)
    requires |ps| >= 1
    ensures acc + [ps[0]] + ps[1..] == acc + ps
    ensures |ps| == 1 ==> acc + [ps[0]] == acc + ps
    ensures acc == [] ==> acc + ps == ps
  {
  }

  /** Where the first of several encoded arguments ends, and that the next one does not start with `>`. */
  lemma {:induction false} ArgumentsLayout(sig: string, startPos: nat, ps: seq<ParameterizedType>, tail: string)
    requires startPos <= |sig| && |ps| >= 2
    requires sig[startPos..] == EncodeAll(ps) + ">" + tail
    ensures var head, after := Encode(ps[0]), EncodeAll(ps[1..]) + ">" + tail;
      |EncodeAll(ps)| == |head| + |EncodeAll(ps[1..])| && sig[startPos..] == head + after &&
      sig[startPos + |head|..] == after && after[0] != '>'
  {
    var head, more := Encode(ps[0]), EncodeAll(ps[1..]);
    assert EncodeAll(ps) == head + more;
    EncodeStart(ps[1]);
    assert more == Encode(ps[1]) + EncodeAll(ps[2..]);
    assert sig[startPos..] == head + (more + ">" + tail);
    assert sig[startPos + |head|..] == sig[startPos..][|head|..];
  }

  /** The last type argument: the loop stops at the `>` after it. */
  lemma {:induction false} DecodeLastArgument(env: Env, sig: string, startPos: nat, p: ParameterizedType,
                           acc: seq<ParameterizedType>, tail: string)
    requires 1 <= startPos <= |sig| && WellFormed(env, p)
    requires sig[startPos..] == Encode(p) + ">" + tail
    ensures ArgumentsFrom(env, Corrected, sig, startPos, acc, false)
         == Done(TypeArguments(acc + [p], startPos + |Encode(p)| + 1, false))
    decreases p, 5
  {
    ArgStepEncoded(env, sig, startPos, p, ">" + tail);
    ArgumentsUnfold(env, sig, startPos, acc, Step(p, false, 0, startPos + |Encode(p)| + 1, false));
  }

  /** The type-argument loop unfolded once, for a known step. */
  lemma {:induction false} ArgumentsUnfold(env: Env, sig: string, startPos: nat, acc: seq<ParameterizedType>, s: Step)
    requires 1 <= startPos <= |sig| && ArgStep(env, Corrected, sig, startPos, false) == Done(s)
    ensures ArgumentsFrom(env, Corrected, sig, startPos, acc, false)
         == if !s.more then Done(TypeArguments(acc + [s.result], s.endPos, s.typeNotFoundError))
            else if s.startPos == startPos then Loops
            else ArgumentsFrom(env, Corrected, sig, s.startPos, acc + [s.result], s.typeNotFoundError)
  {
  }

  /** One step of the type-argument loop over an encoded argument: the cursor moves past it. */
  lemma {:induction false} ArgStepEncoded(env: Env, sig: string, startPos: nat, p: ParameterizedType, after: string)
    requires 1 <= startPos <= |sig| && WellFormed(env, p) && |after| >= 1
    requires sig[startPos..] == Encode(p) + after
    ensures var end := startPos + |Encode(p)|;
      ArgStep(env, Corrected, sig, startPos, false)
      == Done(if after[0] == '>' then Step(p, false, 0, end + 1, false) else Step(p, true, end, 0, false))
    decreases p, 4
  {
    DecodeEncode(env, p, after);
    assert sig[startPos + |Encode(p)|] == after[0];
  }

  /** No encoding starts with the `>` that closes an argument list. */
  lemma {:induction false} EncodeStart(pt: ParameterizedType)
    ensures Encode(pt)[0] != '>'
  {
    EncodeFirst(pt);
  }

  /** No encoding starts with the `)` or the `^` of a method descriptor. */
  lemma {:induction false} EncodeStartInDescriptor(pt: ParameterizedType)
    ensures Encode(pt)[0] != ')' && Encode(pt)[0] != '^'
  {
    EncodeFirst(pt);
  }

  /** An encoding starts with a wildcard mark, a bracket, a descriptor letter, `L`, `T` or `*`. */
  lemma {:induction false} EncodeFirst(pt: ParameterizedType)
    ensures Encode(pt)[0] in "*+-[BCDFIJSVZLT"
  {
    match pt
    case UnboundWildcard =>
    case PrimitiveType(p, n, w) =>
      assert Encode(pt) == Prefix(w, n) + [Descriptor(p)];
      if |Mark(w)| == 0 && n > 0 { assert Encode(pt)[0] == Repeat('[', n)[0]; }
    case ClassType(t, n, w, ps) =>
      if |Mark(w)| == 0 && n > 0 { assert Encode(pt)[0] == Prefix(w, n)[0] == Repeat('[', n)[0]; }
    case TypeVariable(tp, n, w) =>
      if |Mark(w)| == 0 && n > 0 { assert Encode(pt)[0] == Prefix(w, n)[0] == Repeat('[', n)[0]; }
  }
}
