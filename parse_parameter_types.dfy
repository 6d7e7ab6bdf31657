/**
 * Decoding of a method descriptor or method signature `(P1...Pn)R` into the
 * list `[P1, ..., Pn, R]` (section 4.3.3 of the Java Virtual Machine
 * Specification), one field type at a time with ParameterizedTypeFactory.
 */
module ParseParameterTypes {
  import opened JavaLang
  import opened JavaTypes
  import opened TypeParameterContext
  import opened ParameterizedTypeFactory
  import opened SignatureEncoding

  /** One step of the loop: the type read, and where the next one starts (`more`) or where the signature ended. */
  datatype MethodStep = MethodStep(result: ParameterizedType, more: bool, startPos: nat, endPos: nat)

  /** iterativelyParseMethodTypes: one type at `startPos`; a `)` after it is skipped and a `^` is refused. */
  ghost function MethodTypeStep(env: Env, sig: string, startPos: nat): (o: Parse<MethodStep>)
    requires startPos <= |sig|
    ensures o.Done? && o.value.more ==> startPos <= o.value.startPos <= |sig|
    ensures o.Done? && !o.value.more ==> o.value.endPos == |sig|
  {
    match TypeFrom(env, Corrected, sig[startPos..])
    case Null => Null
    case Threw(e) => Threw(e)
    case Loops => Loops
    case Done(r) =>
      var end := startPos + r.nextPos;
      if end >= |sig| then Done(MethodStep(r.parameterizedType, false, 0, end))
      else if sig[end] == '^' then Threw(UnsupportedOperation("Found caret"))
      else Done(MethodStep(r.parameterizedType, true, if sig[end] == ')' then end + 1 else end, 0))
  }

  /** The do/while loop of parseParameterTypesOfMethod from `startPos`, after the types in `acc`. */
  ghost function MethodTypesFrom(env: Env, sig: string, startPos: nat, acc: seq<ParameterizedType>)
    : (o: Parse<seq<ParameterizedType>>)
    requires startPos <= |sig|
    ensures o.Done? ==> |o.value| > |acc|
    decreases |sig| - startPos
  {
    match MethodTypeStep(env, sig, startPos)
    case Null => Null
    case Threw(e) => Threw(e)
    case Loops => Loops
    case Done(s) =>
      if !s.more then Done(acc + [s.result])
      else if s.startPos == startPos then Loops
      else MethodTypesFrom(env, sig, s.startPos, acc + [s.result])
  }

  /**
   * parseParameterTypesOfMethod: for `()R` the one-element list `[R]`,
   * otherwise every type from position 1 on; null as soon as one type is.
   */
  ghost function ParameterTypesOfMethod(env: Env, sig: string): (o: Parse<seq<ParameterizedType>>)
    ensures o.Done? ==> |o.value| >= 1
  {
    if StartsWith(sig, "()") then
      match TypeFrom(env, Corrected, sig[2..])
      case Null => Null
      case Threw(e) => Threw(e)
      case Loops => Loops
      case Done(r) => Done([r.parameterizedType])
    else if |sig| == 0 then Threw(IndexOutOfBounds)
    else MethodTypesFrom(env, sig, 1, [])
  }

  /**
   * `from` is called here with five arguments, an overload that is not
   * part of this model; it is taken to be the six-argument one with
   * `createStub` false, so an unloadable class type is never stubbed.
   */
  ghost function MethodEnv(ctx: TypeParameterContext, loadable: set<string>): Env
    requires ctx.Valid()
    reads ctx, ctx.Repr
  {
    EnvOf(ctx, loadable, false)
  }

  method ParseParameterTypesOfMethod(ctx: TypeParameterContext, loadable: set<string>, signature: string)
    returns (o: Parse<seq<ParameterizedType>>)
    requires ctx.Valid()
    ensures o == ParameterTypesOfMethod(MethodEnv(ctx, loadable), signature)
  {
    ghost var env := MethodEnv(ctx, loadable);
    if |signature| >= 2 && signature[..2] == "()" {
      var from := From(ctx, loadable, signature[2..], false);
      match from {
        case Null => return Null;
        case Threw(e) => return Threw(e);
        case Loops => return Loops;
        case Done(r) => return Done([r.parameterizedType]);
      }
    }
    if |signature| == 0 { return Threw(IndexOutOfBounds); }
    ghost var goal := MethodTypesFrom(env, signature, 1, []);
    var methodTypes: seq<ParameterizedType> := [];
    var startPos := 1;
    while true
      invariant startPos <= |signature|
      invariant MethodTypesFrom(env, signature, startPos, methodTypes) == goal
      decreases |signature| - startPos
    {
      var step := IterativelyParseMethodTypes(ctx, loadable, signature, startPos);
      match step {
        case Null => return Null;
        case Threw(e) => return Threw(e);
        case Loops => return Loops;
        case Done(s) =>
          methodTypes := methodTypes + [s.result];
          if !s.more { return Done(methodTypes); }
          if s.startPos == startPos { return Loops; }
          startPos := s.startPos;
      }
    }
  }

  method IterativelyParseMethodTypes(ctx: TypeParameterContext, loadable: set<string>, signature: string,
                                     startPos: nat) returns (o: Parse<MethodStep>)
    requires ctx.Valid() && startPos <= |signature|
    ensures o == MethodTypeStep(MethodEnv(ctx, loadable), signature, startPos)
  {
    var result := From(ctx, loadable, signature[startPos..], false);
    match result {
      case Null => return Null;
      case Threw(e) => return Threw(e);
      case Loops => return Loops;
      case Done(r) =>
        var end := startPos + r.nextPos;
        if end >= |signature| { return Done(MethodStep(r.parameterizedType, false, 0, end)); }
        var atEnd := signature[end];
        if atEnd == '^' { return Threw(UnsupportedOperation("Found caret")); }
        return Done(MethodStep(r.parameterizedType, true, if atEnd == ')' then end + 1 else end, 0));
    }
  }

  // ---------------------------------------------------------------------------
  // round trip

  /** The descriptor of a method taking `ps` and returning `r`. */
  function MethodDescriptor(ps: seq<ParameterizedType>, r: ParameterizedType): string
  {
    "(" + EncodeAll(ps) + ")" + Encode(r)
  }

  /**
   * A descriptor decodes to its parameter types followed by its return type.
   * A throws clause after it (`^...`) is refused, except after `()`, where
   * only the return type is read and the rest of the string is ignored.
   */
  lemma {:induction false} DecodeMethodDescriptor(env: Env, ps: seq<ParameterizedType>, r: ParameterizedType, tail: string)
    requires AllWellFormed(env, ps) && WellFormed(env, r)
    requires tail == "" || tail[0] == '^'
    ensures ParameterTypesOfMethod(env, MethodDescriptor(ps, r) + tail)
         == if ps == [] then Done([r])
            else if tail == "" then Done(ps + [r])
            else Threw(UnsupportedOperation("Found caret"))
  {
    var sig := MethodDescriptor(ps, r) + tail;
    if ps == [] {
      DecodeWithoutParameters(env, ps, r, tail, sig);
    } else {
      DecodeWithParameters(env, ps, r, tail, sig,
                           if tail == "" then Done(ps + [r]) else Threw(UnsupportedOperation("Found caret")));
    }
  }

  /** `()R`: the return type alone, whatever follows it. */
  lemma {:induction false} DecodeWithoutParameters(env: Env, ps: seq<ParameterizedType>, r: ParameterizedType,
                                                   tail: string, sig: string)
    requires ps == [] && WellFormed(env, r) && sig == MethodDescriptor(ps, r) + tail
    ensures ParameterTypesOfMethod(env, sig) == Done([r])
  {
    assert sig == "()" + (Encode(r) + tail) && StartsWith(sig, "()");
    assert sig[2..] == Encode(r) + tail;
    DecodeEncode(env, r, tail);
  }

  /** `(P...)R`: the loop from position 1 through the parameters, then the return type; `o` names the outcome. */
  lemma {:induction false} DecodeWithParameters(env: Env, ps: seq<ParameterizedType>, r: ParameterizedType,
                                                tail: string, sig: string, o: Parse<seq<ParameterizedType>>)
    requires |ps| >= 1 && AllWellFormed(env, ps) && WellFormed(env, r)
    requires tail == "" || tail[0] == '^'
    requires sig == MethodDescriptor(ps, r) + tail
    requires o == if tail == "" then Done(ps + [r]) else Threw(UnsupportedOperation("Found caret"))
    ensures ParameterTypesOfMethod(env, sig) == o
  {
    var end := 1 + |EncodeAll(ps)| + 1;
    DescriptorLayout(sig, ps, r, tail);
    EmptyAppend(ps);
    DecodeMethodTypes(env, sig, 1, ps, [], Encode(r) + tail, ps, end);
    DecodeReturnType(env, sig, end, r, ps, tail);
    LoopFromOne(env, sig, o);
  }

  /** Without a leading `()`, the whole answer is the loop's from position 1. */
  lemma {:induction false} LoopFromOne(env: Env, sig: string, o: Parse<seq<ParameterizedType>>)
    requires |sig| >= 2 && !StartsWith(sig, "()") && MethodTypesFrom(env, sig, 1, []) == o
    ensures ParameterTypesOfMethod(env, sig) == o
  {
  }

  /**
   * A descriptor with parameters does not start with `()`, its parameters
   * start at position 1, and its return type just after their `)`.
   */
  lemma {:induction false} DescriptorLayout(sig: string, ps: seq<ParameterizedType>, r: ParameterizedType, tail: string)
    requires |ps| >= 1 && sig == MethodDescriptor(ps, r) + tail
    ensures |sig| >= 2 && !StartsWith(sig, "()")
    ensures ParametersAt(sig, 1, ps, Encode(r) + tail)
    ensures 1 + |EncodeAll(ps)| + 1 <= |sig| && sig[1 + |EncodeAll(ps)| + 1..] == Encode(r) + tail
  {
    EncodeStartInDescriptor(ps[0]);
    assert EncodeAll(ps) == Encode(ps[0]) + EncodeAll(ps[1..]);
    Regroup(EncodeAll(ps), Encode(r), sig, tail);
    SkipClose(sig, 1, EncodeAll(ps), Encode(r) + tail);
  }

  lemma {:induction false} Regroup(params: string, ret: string, sig: string, tail: string)
    requires sig == "(" + params + ")" + ret + tail
    ensures sig[1..] == params + ")" + (ret + tail)
    ensures sig[1..] == params + (")" + (ret + tail))
    ensures |params| >= 1 ==> sig[1] == params[0]
  {
    assert sig == "(" + (params + ")" + (ret + tail));
    assert params + ")" + (ret + tail) == params + (")" + (ret + tail));
  }

  /** From `startPos` on, `sig` holds the encoded parameters `ps`, the `)` and then `rest`. */
  ghost predicate ParametersAt(sig: string, startPos: nat, ps: seq<ParameterizedType>, rest: string)
  {
    startPos <= |sig| && sig[startPos..] == EncodeAll(ps) + ")" + rest
  }

  /**
   * The loop reads the encoded parameters from `startPos` and skips their
   * `)`: it carries on at `endPos` with `all`, the types before them and
   * the parameters themselves.
   */
  lemma {:induction false} DecodeMethodTypes(env: Env, sig: string, startPos: nat, ps: seq<ParameterizedType>,
                                             acc: seq<ParameterizedType>, rest: string,
                                             all: seq<ParameterizedType>, endPos: nat)
    requires |ps| >= 1 && ParametersAt(sig, startPos, ps, rest) && AllWellFormed(env, ps)
    requires all == acc + ps && endPos == startPos + |EncodeAll(ps)| + 1
    ensures endPos <= |sig|
    ensures MethodTypesFrom(env, sig, startPos, acc) == MethodTypesFrom(env, sig, endPos, all)
    decreases ps
  {
    AppendFirst(acc, ps);
    if |ps| == 1 {
      LastParameterStep(env, sig, startPos, ps, acc, rest, all, endPos);
    } else {
      var next := startPos + |Encode(ps[0])|;
      ParametersRest(sig, startPos, ps, rest);
      DecodeMethodTypes(env, sig, next, ps[1..], acc + [ps[0]], rest, all, endPos);
      FirstParameterStep(env, sig, startPos, ps, acc, rest, next);
    }
  }

  /** After the first of several parameters, the others follow. */
  lemma {:induction false} ParametersRest(sig: string, startPos: nat, ps: seq<ParameterizedType>, rest: string)
    requires |ps| >= 2 && ParametersAt(sig, startPos, ps, rest)
    ensures ParametersAt(sig, startPos + |Encode(ps[0])|, ps[1..], rest)
    ensures |EncodeAll(ps)| == |Encode(ps[0])| + |EncodeAll(ps[1..])|
  {
    ParametersLayout(sig, startPos, ps, rest);
  }

  /** The first of several parameters is read and the loop goes on at `next`, just after it. */
  lemma {:induction false} FirstParameterStep(env: Env, sig: string, startPos: nat, ps: seq<ParameterizedType>,
                                              acc: seq<ParameterizedType>, rest: string, next: nat)
    requires |ps| >= 2 && ParametersAt(sig, startPos, ps, rest) && AllWellFormed(env, ps)
    requires next == startPos + |Encode(ps[0])|
    ensures next <= |sig|
    ensures MethodTypesFrom(env, sig, startPos, acc) == MethodTypesFrom(env, sig, next, acc + [ps[0]])
  {
    ParametersLayout(sig, startPos, ps, rest);
    DecodeParameter(env, sig, startPos, ps, acc, EncodeAll(ps[1..]) + ")" + rest, next);
  }

  /** The last parameter is read and the loop goes on at `next`, after the `)` that follows it. */
  lemma {:induction false} LastParameterStep(env: Env, sig: string, startPos: nat, ps: seq<ParameterizedType>,
                                             acc: seq<ParameterizedType>, rest: string,
                                             all: seq<ParameterizedType>, next: nat)
    requires |ps| == 1 && ParametersAt(sig, startPos, ps, rest) && AllWellFormed(env, ps)
    requires all == acc + ps && next == startPos + |EncodeAll(ps)| + 1
    ensures next <= |sig|
    ensures MethodTypesFrom(env, sig, startPos, acc) == MethodTypesFrom(env, sig, next, all)
  {
    ParametersLayout(sig, startPos, ps, rest);
    AppendFirst(acc, ps);
    DecodeParameter(env, sig, startPos, ps, acc, ")" + rest, next);
  }

  /**
   * The first parameter of `ps`, followed by another one or by `)`: the loop
   * goes on at `next`, just after it or after the `)`.
   */
  lemma {:induction false} DecodeParameter(env: Env, sig: string, startPos: nat, ps: seq<ParameterizedType>,
                                           acc: seq<ParameterizedType>, after: string, next: nat)
    requires |ps| >= 1 && startPos <= |sig| && AllWellFormed(env, ps)
    requires sig[startPos..] == Encode(ps[0]) + after
    requires after != "" && after[0] != '^'
    requires next == startPos + |Encode(ps[0])| + (if after[0] == ')' then 1 else 0)
    ensures next <= |sig|
    ensures MethodTypesFrom(env, sig, startPos, acc) == MethodTypesFrom(env, sig, next, acc + [ps[0]])
  {
    ParameterRead(env, sig, startPos, ps, after, next);
    LoopGoesOn(env, sig, startPos, acc, ps, next);
  }

  /** Reading the first parameter of `ps` moves the cursor to `next`. */
  lemma {:induction false} ParameterRead(env: Env, sig: string, startPos: nat, ps: seq<ParameterizedType>,
                                         after: string, next: nat)
    requires |ps| >= 1 && startPos <= |sig| && AllWellFormed(env, ps)
    requires sig[startPos..] == Encode(ps[0]) + after
    requires after != "" && after[0] != '^'
    requires next == startPos + |Encode(ps[0])| + (if after[0] == ')' then 1 else 0)
    ensures next != startPos
    ensures MethodTypeStep(env, sig, startPos) == Done(MethodStep(ps[0], true, next, 0))
  {
    MethodStepEncoded(env, sig, startPos, ps[0], after);
    EncodeStartInDescriptor(ps[0]);
  }

  /** A step that reads `ps[0]` and moves the cursor on: the loop goes on at `next`. */
  lemma {:induction false} LoopGoesOn(env: Env, sig: string, startPos: nat, acc: seq<ParameterizedType>,
                                      ps: seq<ParameterizedType>, next: nat)
    requires |ps| >= 1 && startPos <= |sig| && next != startPos
    requires MethodTypeStep(env, sig, startPos) == Done(MethodStep(ps[0], true, next, 0))
    ensures next <= |sig|
    ensures MethodTypesFrom(env, sig, startPos, acc) == MethodTypesFrom(env, sig, next, acc + [ps[0]])
  {
  }

  lemma {:induction false} SkipClose(sig: string, startPos: nat, head: string, rest: string)
    requires startPos <= |sig| && sig[startPos..] == head + (")" + rest)
    ensures startPos + |head| + 1 <= |sig| && sig[startPos + |head| + 1..] == rest
  {
    assert sig[startPos..][|head| + 1..] == rest;
  }

  /** Where the first encoded parameter ends and what follows it. */
  lemma {:induction false} ParametersLayout(sig: string, startPos: nat, ps: seq<ParameterizedType>, rest: string)
    requires startPos <= |sig| && |ps| >= 1
    requires sig[startPos..] == EncodeAll(ps) + ")" + rest
    ensures sig[startPos..] == Encode(ps[0]) + (EncodeAll(ps[1..]) + ")" + rest)
    ensures startPos + |Encode(ps[0])| + |EncodeAll(ps[1..]) + ")" + rest| == |sig|
    ensures sig[startPos + |Encode(ps[0])|..] == EncodeAll(ps[1..]) + ")" + rest
    ensures |EncodeAll(ps)| == |Encode(ps[0])| + |EncodeAll(ps[1..])|
    ensures |ps| == 1 ==> EncodeAll(ps[1..]) + ")" + rest == ")" + rest && EncodeAll(ps[1..]) == ""
    ensures |ps| >= 2 ==>
      |EncodeAll(ps[1..])| >= 1 && (EncodeAll(ps[1..]) + ")" + rest)[0] == EncodeAll(ps[1..])[0] &&
      EncodeAll(ps[1..])[0] != ')' && EncodeAll(ps[1..])[0] != '^'
  {
    var head, more := Encode(ps[0]), EncodeAll(ps[1..]);
    assert EncodeAll(ps) == head + more;
    assert sig[startPos..] == head + (more + ")" + rest);
    assert sig[startPos + |head|..] == sig[startPos..][|head|..];
    if |ps| == 1 {
      assert ps[1..] == [];
    } else {
      EncodeStartInDescriptor(ps[1]);
      assert more == Encode(ps[1]) + EncodeAll(ps[2..]);
    }
  }

  /** The return type closes the loop: the signature ends after it, or a `^` follows. */
  lemma {:induction false} DecodeReturnType(env: Env, sig: string, startPos: nat, r: ParameterizedType,
                         acc: seq<ParameterizedType>, tail: string)
    requires startPos <= |sig| && WellFormed(env, r)
    requires sig[startPos..] == Encode(r) + tail
    requires tail == "" || tail[0] == '^'
    ensures MethodTypesFrom(env, sig, startPos, acc)
         == if tail == "" then Done(acc + [r]) else Threw(UnsupportedOperation("Found caret"))
  {
    MethodStepEncoded(env, sig, startPos, r, tail);
    if tail == "" {
      MethodTypesUnfold(env, sig, startPos, acc, MethodStep(r, false, 0, |sig|));
    }
  }

  /** One step of the loop over an encoded type: the cursor moves past it, and past a `)` after it. */
  lemma {:induction false} MethodStepEncoded(env: Env, sig: string, startPos: nat, p: ParameterizedType, after: string)
    requires startPos <= |sig| && WellFormed(env, p)
    requires sig[startPos..] == Encode(p) + after
    ensures var end := startPos + |Encode(p)|;
      MethodTypeStep(env, sig, startPos)
      == if after == "" then Done(MethodStep(p, false, 0, end))
         else if after[0] == '^' then Threw(UnsupportedOperation("Found caret"))
         else Done(MethodStep(p, true, if after[0] == ')' then end + 1 else end, 0))
  {
    DecodeEncode(env, p, after);
    if after != "" {
      assert sig[startPos + |Encode(p)|] == after[0];
    }
  }

  /** The loop unfolded once, for a known step. */
  lemma {:induction false} MethodTypesUnfold(env: Env, sig: string, startPos: nat, acc: seq<ParameterizedType>, s: MethodStep)
    requires startPos <= |sig| && MethodTypeStep(env, sig, startPos) == Done(s)
    ensures MethodTypesFrom(env, sig, startPos, acc)
         == if !s.more then Done(acc + [s.result])
            else if s.startPos == startPos then Loops
            else MethodTypesFrom(env, sig, s.startPos, acc + [s.result])
  {
  }
}
