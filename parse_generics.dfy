/**
 * Decoding of the formal type-parameter section `<T:bound;U::bound;...>` at
 * the start of a class or method signature (section 4.7.9.1 of the Java
 * Virtual Machine Specification).
 *
 * The section is scanned one `Name:` entry at a time; each entry creates a
 * type parameter, binds it in the type-parameter context and decodes its
 * bounds. When a bound names a type variable that is not yet in scope (a
 * forward reference), the whole section is scanned again, reusing the type
 * parameters created on the first pass, at most 100 more times.
 *
 * The ghost functions are the specification, one per loop of the decoder;
 * the class holds the decoder's fields and its methods are proved to compute
 * the specification.
 */
module ParseGenerics {
  import opened JavaLang
  import opened JavaTypes
  import opened TypeParameterContext
  import opened ParameterizedTypeFactory

  /** How a scan, or a part of it, ends. */
  datatype Status =
    | Ok
    /** a bound could not be loaded: the decoder returns -1 */
    | LoadFailed
    | Failed(exception: Exception)
    /** the type decoder does not terminate on a bound */
    | Diverges

  /** What the scan depends on besides the context: fixed for the whole run. */
  datatype Config = Config(owner: string, loadable: set<string>, signature: string, createStub: bool)

  /**
   * The decoder's fields, with `scope` the bindings of its type-parameter
   * context and `typeBounds` the bounds set on the type parameter at each
   * position of `typeParameters`.
   */
  datatype GenState = GenState(scope: map<string, TypeParameter>, typeParameters: seq<TypeParameter>,
                               typeBounds: map<nat, seq<ParameterizedType>>,
                               startPos: nat, endPos: nat, more: bool, typeNotFoundError: bool)

  datatype Outcome = Outcome(status: Status, state: GenState)

  /** The bounds of one type parameter, the cursor after them, and the accumulated flag. */
  datatype Bounds = Bounds(status: Status, types: seq<ParameterizedType>, end: nat, typeNotFoundError: bool)

  /** A bound that is `java.lang.Object` itself, which the decoder does not record. */
  predicate IsObjectBound(pt: ParameterizedType)
  {
    pt.ClassType? && IsJavaLangObject(pt.typeInfo)
  }

  // ---------------------------------------------------------------------------
  // specification

  /**
   * The `while (atEnd == COLON)` loop, with the cursor `end` on a colon:
   * a second colon (no class bound) is skipped, one bound is decoded after
   * it, and the loop goes on while the character after the bound is a colon.
   */
  ghost function BoundsFrom(env: Env, sig: string, end: nat, acc: seq<ParameterizedType>, tnf: bool): (b: Bounds)
    requires end < |sig| && sig[end] == ':'
    ensures b.status == Ok ==> end < b.end < |sig| && sig[b.end] != ':'
    decreases |sig| - end, 1
  {
    if end + 1 >= |sig| then Bounds(Failed(IndexOutOfBounds), acc, end, tnf)
    else
      var e: nat := if sig[end + 1] == ':' then end + 1 else end;
      BoundsAfter(env, sig, e, acc, tnf, TypeFrom(env, Corrected, sig[e + 1..]))
  }

  /** The rest of the bounds loop once the type decoder has answered `o` on the string after `e`. */
  ghost function BoundsAfter(env: Env, sig: string, e: nat, acc: seq<ParameterizedType>, tnf: bool,
                             o: Parse<Result>): (b: Bounds)
    requires e < |sig|
    requires o.Done? ==> o.value.nextPos <= |sig| - (e + 1)
    ensures b.status == Ok ==> e < b.end < |sig| && sig[b.end] != ':'
    decreases |sig| - e, 0
  {
    match o
    case Null => Bounds(LoadFailed, acc, e, tnf)
    case Threw(x) => Bounds(Failed(x), acc, e, tnf)
    case Loops => Bounds(Diverges, acc, e, tnf)
    case Done(r) =>
      var acc' := if IsObjectBound(r.parameterizedType) then acc else acc + [r.parameterizedType];
      var e' := r.nextPos + e + 1;
      if e' >= |sig| then Bounds(Failed(IndexOutOfBounds), acc', e', tnf)
      else if sig[e'] == ':' then BoundsFrom(env, sig, e', acc', tnf || r.typeNotFoundError)
      else Bounds(Ok, acc', e', tnf || r.typeNotFoundError)
  }

  /** BoundsFrom unfolded once: the cursor moves past a second colon and the decoder reads the bound after it. */
  lemma {:induction false} BoundsUnfold(env: Env, sig: string, colon: nat, e: nat, acc: seq<ParameterizedType>, tnf: bool,
                                        o: Parse<Result>)
    requires colon + 1 < |sig| && sig[colon] == ':'
    requires e == if sig[colon + 1] == ':' then colon + 1 else colon
    requires o == TypeFrom(env, Corrected, sig[e + 1..])
    ensures BoundsFrom(env, sig, colon, acc, tnf) == BoundsAfter(env, sig, e, acc, tnf, o)
  {
  }

  /** BoundsAfter unfolded once, after a bound has been decoded. */
  lemma {:induction false} BoundsNext(env: Env, sig: string, e: nat, acc: seq<ParameterizedType>, tnf: bool, r: Result,
                                      acc': seq<ParameterizedType>, e': nat, tnf': bool)
    requires e < |sig| && r.nextPos <= |sig| - (e + 1)
    requires acc' == (if IsObjectBound(r.parameterizedType) then acc else acc + [r.parameterizedType])
    requires e' == r.nextPos + e + 1 && e' < |sig| && tnf' == (tnf || r.typeNotFoundError)
    ensures sig[e'] == ':' ==> BoundsAfter(env, sig, e, acc, tnf, Done(r)) == BoundsFrom(env, sig, e', acc', tnf')
    ensures sig[e'] != ':' ==> BoundsAfter(env, sig, e, acc, tnf, Done(r)) == Bounds(Ok, acc', e', tnf')
  {
  }

  /** What an entry yields before the fields are written: the name before its colon, the position of its type parameter, its bounds. */
  datatype Entry = Entry(name: string, pos: nat, bounds: Bounds)

  /**
   * The reading part of iterativelyParseGenerics, from the fields it reads:
   * the name runs from `startPos` to the next colon; on the first pass the
   * new type parameter, numbered `index`, is bound in the scope before the
   * bounds are decoded, on later passes the one at `index` is reused. None
   * when there is no colon or no type parameter at `index` (both throw).
   */
  ghost function ScanEntry(cfg: Config, scope: map<string, TypeParameter>, typeParameters: seq<TypeParameter>,
                           startPos: nat, tnf: bool, index: nat, first: bool): (r: Option<Entry>)
    ensures r.Some? ==> r.value.pos == (if first then |typeParameters| else index)
    ensures r.Some? && r.value.bounds.status == Ok ==>
      startPos < r.value.bounds.end < |cfg.signature| && cfg.signature[r.value.bounds.end] != ':'
  {
    var sig := cfg.signature;
    var end := IndexOf(sig, ':', startPos);
    if end < 0 || (!first && index >= |typeParameters|) then None
    else
      var name := sig[startPos..end];
      var scope' := if first then scope[name := TypeParameter(index, name, cfg.owner)] else scope;
      Some(Entry(name, if first then |typeParameters| else index,
                 BoundsFrom(Env(scope', cfg.loadable, cfg.createStub), sig, end, [], tnf)))
  }

  /** iterativelyParseGenerics: the entry starting at `startPos`, and the fields it leaves. */
  ghost function Iteration(cfg: Config, s: GenState, index: nat, first: bool): (o: Outcome)
    ensures o.status == Ok && o.state.more ==> s.startPos < o.state.startPos < |cfg.signature|
    ensures o.status == Ok && !o.state.more ==>
      o.state.endPos < |cfg.signature| && cfg.signature[o.state.endPos] == '>'
  {
    match ScanEntry(cfg, s.scope, s.typeParameters, s.startPos, s.typeNotFoundError, index, first)
    case None => Outcome(Failed(IndexOutOfBounds), s)
    case Some(e) =>
      Finish(cfg.signature, if first then Created(s, TypeParameter(index, e.name, cfg.owner)) else s, e.pos, e.bounds)
  }

  /** Iteration, once the name, the type parameter and its bounds are known. */
  lemma {:induction false} IterationIs(cfg: Config, s: GenState, index: nat, first: bool, end: int,
                                       s1: GenState, pos: nat, b: Bounds)
    requires end == IndexOf(cfg.signature, ':', s.startPos) && end >= 0
    requires first || index < |s.typeParameters|
    requires pos == if first then |s.typeParameters| else index
    requires s1 == if first then Created(s, TypeParameter(index, cfg.signature[s.startPos..end], cfg.owner)) else s
    requires b == BoundsFrom(Env(s1.scope, cfg.loadable, cfg.createStub), cfg.signature, end, [], s.typeNotFoundError)
    ensures Iteration(cfg, s, index, first) == Finish(cfg.signature, s1, pos, b)
  {
    assert ScanEntry(cfg, s.scope, s.typeParameters, s.startPos, s.typeNotFoundError, index, first)
        == Some(Entry(cfg.signature[s.startPos..end], pos, b));
  }

  /** The state once the type parameter `tp` is appended and bound in the scope. */
  function Created(s: GenState, tp: TypeParameter): (s': GenState)
    ensures s'.typeParameters == s.typeParameters + [tp] && s'.scope == s.scope[tp.name := tp]
    ensures s' == s.(typeParameters := s'.typeParameters, scope := s'.scope)
  {
    s.(typeParameters := s.typeParameters + [tp], scope := s.scope[tp.name := tp])
  }

  /** The end of an entry: its bounds are set, and `>` ends the section while any other character starts the next entry. */
  ghost function Finish(sig: string, s: GenState, pos: nat, b: Bounds): (o: Outcome)
    requires b.status == Ok ==> b.end < |sig| && sig[b.end] != ':'
  {
    var s' := s.(typeNotFoundError := b.typeNotFoundError);
    if b.status != Ok then Outcome(b.status, s')
    else
      var s'' := s'.(typeBounds := s'.typeBounds[pos := b.types]);
      if sig[b.end] == '>' then Outcome(Ok, s''.(more := false, endPos := b.end))
      else Outcome(Ok, s''.(more := true, startPos := b.end))
  }

  /** The do/while loop of one pass: entries from `index` on, until `>`. */
  ghost function Pass(cfg: Config, s: GenState, index: nat, first: bool): (o: Outcome)
    ensures o.status == Ok ==> !o.state.more
    ensures o.status == Ok ==> o.state.endPos < |cfg.signature| && cfg.signature[o.state.endPos] == '>'
    decreases |cfg.signature| - s.startPos
  {
    var o := Iteration(cfg, s, index, first);
    if o.status != Ok || !o.state.more then o
    else Pass(cfg, o.state, index + 1, first)
  }

  /** The state at the start of a pass. */
  function Reset(s: GenState): (s': GenState)
    ensures s'.startPos == 1 && !s'.typeNotFoundError
    ensures s' == s.(startPos := s'.startPos, typeNotFoundError := s'.typeNotFoundError)
  {
    s.(startPos := 1, typeNotFoundError := false)
  }

  /** The `while (true)` loop: pass number `ilp`, then another pass while a type was not found. */
  ghost function Go(cfg: Config, s: GenState, ilp: nat): (o: Outcome)
    requires ilp <= 100
    decreases 100 - ilp
  {
    var o := Pass(cfg, Reset(s), 0, ilp == 0);
    if o.status != Ok || !o.state.typeNotFoundError then o
    else if ilp + 1 > 100 then Outcome(Failed(UnsupportedOperation("In infinite loop")), o.state)
    else Go(cfg, o.state, ilp + 1)
  }

  /** Go unfolded once, given the outcome `o` of its first pass. */
  lemma {:induction false} GoUnfold(cfg: Config, s: GenState, ilp: nat, o: Outcome)
    requires ilp <= 100 && o == Pass(cfg, Reset(s), 0, ilp == 0)
    ensures o.status != Ok || !o.state.typeNotFoundError ==> Go(cfg, s, ilp) == o
    ensures o.status == Ok && o.state.typeNotFoundError && ilp + 1 > 100 ==>
      Go(cfg, s, ilp) == Outcome(Failed(UnsupportedOperation("In infinite loop")), o.state)
    ensures o.status == Ok && o.state.typeNotFoundError && ilp + 1 <= 100 ==> Go(cfg, s, ilp) == Go(cfg, o.state, ilp + 1)
  {
  }

  /** The value goReturnEndPos returns or throws. */
  function ResultOf(o: Outcome): (r: Parse<int>)
    ensures r.Done? ==> r.value == (if o.status == Ok then o.state.endPos else -1)
    ensures r.Threw? <==> o.status.Failed?
    ensures r.Loops? <==> o.status == Diverges
    ensures !r.Null?
  {
    match o.status
    case Ok => Done(o.state.endPos)
    case LoadFailed => Done(-1)
    case Failed(e) => Threw(e)
    case Diverges => Loops
  }

  // ---------------------------------------------------------------------------
  // properties

  /** The decoder returns the position of the `>` that closes the section, or -1 only when a bound cannot be loaded. */
  lemma {:induction false} EndPosIsClosingBracket(cfg: Config, s: GenState)
    ensures var r := ResultOf(Go(cfg, s, 0));
      (r.Done? && r.value >= 0 ==> r.value < |cfg.signature| && cfg.signature[r.value] == '>') &&
      (r == Done(-1) <==> Go(cfg, s, 0).status == LoadFailed)
  {
    GoEndsAtBracket(cfg, s, 0);
  }

  /** A successful run of the retry loop ends on the `>` of its last pass, with every type found. */
  lemma {:induction false} GoEndsAtBracket(cfg: Config, s: GenState, ilp: nat)
    requires ilp <= 100
    ensures var o := Go(cfg, s, ilp);
      o.status == Ok ==> !o.state.typeNotFoundError && o.state.endPos < |cfg.signature| &&
                         cfg.signature[o.state.endPos] == '>'
    decreases 100 - ilp
  {
    var o := Pass(cfg, Reset(s), 0, ilp == 0);
    if o.status == Ok && o.state.typeNotFoundError && ilp + 1 <= 100 {
      GoEndsAtBracket(cfg, o.state, ilp + 1);
    }
  }

  /**
   * The first pass numbers the type parameters it creates 0, 1, ... in
   * declaration order, gives them the owner, and binds each in the scope.
   */
  ghost predicate Numbered(tps: seq<TypeParameter>, owner: string, scope: map<string, TypeParameter>)
  {
    forall i :: 0 <= i < |tps| ==> tps[i].index == i && tps[i].owner == owner && tps[i].name in scope
  }

  lemma {:induction false} FirstIterationNumbers(cfg: Config, s: GenState, index: nat)
    requires index == |s.typeParameters| && Numbered(s.typeParameters, cfg.owner, s.scope)
    ensures var o := Iteration(cfg, s, index, true);
      Numbered(o.state.typeParameters, cfg.owner, o.state.scope) &&
      s.typeParameters <= o.state.typeParameters && |o.state.typeParameters| <= index + 1 &&
      (o.status == Ok ==> |o.state.typeParameters| == index + 1)
  {
    var end := IndexOf(cfg.signature, ':', s.startPos);
    if end >= 0 {
      var tp := TypeParameter(index, cfg.signature[s.startPos..end], cfg.owner);
      var s1 := Created(s, tp);
      assert Numbered(s1.typeParameters, cfg.owner, s1.scope) by {
        forall i | 0 <= i < |s1.typeParameters|
          ensures s1.typeParameters[i].index == i && s1.typeParameters[i].owner == cfg.owner
          ensures s1.typeParameters[i].name in s1.scope
        {
          if i < |s.typeParameters| {
            assert s1.typeParameters[i] == s.typeParameters[i];
          }
        }
      }
    }
  }

  lemma {:induction false} FirstPassNumbers(cfg: Config, s: GenState, index: nat)
    requires index == |s.typeParameters| && Numbered(s.typeParameters, cfg.owner, s.scope)
    ensures var o := Pass(cfg, s, index, true);
      Numbered(o.state.typeParameters, cfg.owner, o.state.scope) && s.typeParameters <= o.state.typeParameters
    decreases |cfg.signature| - s.startPos
  {
    var o := Iteration(cfg, s, index, true);
    FirstIterationNumbers(cfg, s, index);
    if o.status == Ok && o.state.more {
      FirstPassNumbers(cfg, o.state, index + 1);
    }
  }

  /** A later pass reuses the type parameters of the first: it changes neither them nor the scope. */
  lemma {:induction false} LaterPassKeeps(cfg: Config, s: GenState, index: nat)
    ensures var o := Pass(cfg, s, index, false);
      o.state.typeParameters == s.typeParameters && o.state.scope == s.scope
    decreases |cfg.signature| - s.startPos
  {
    var o := Iteration(cfg, s, index, false);
    if o.status == Ok && o.state.more {
      LaterPassKeeps(cfg, o.state, index + 1);
    }
  }

  lemma {:induction false} LaterPassesKeep(cfg: Config, s: GenState, ilp: nat)
    requires 1 <= ilp <= 100
    ensures var o := Go(cfg, s, ilp);
      o.state.typeParameters == s.typeParameters && o.state.scope == s.scope
    decreases 100 - ilp
  {
    var o := Pass(cfg, Reset(s), 0, false);
    LaterPassKeeps(cfg, Reset(s), 0);
    if o.status == Ok && o.state.typeNotFoundError && ilp + 1 <= 100 {
      LaterPassesKeep(cfg, o.state, ilp + 1);
    }
  }

  /**
   * From a decoder with no type parameters yet, the type parameters of any
   * run, however it ends, are numbered in declaration order and owned by the
   * owner.
   */
  lemma {:induction false} TypeParametersNumbered(cfg: Config, s: GenState)
    requires s.typeParameters == []
    ensures var o := Go(cfg, s, 0); Numbered(o.state.typeParameters, cfg.owner, o.state.scope)
  {
    var o := Pass(cfg, Reset(s), 0, true);
    FirstPassNumbers(cfg, Reset(s), 0);
    if o.status == Ok && o.state.typeNotFoundError {
      LaterPassesKeep(cfg, o.state, 1);
    }
  }

  /** No recorded bound is `java.lang.Object`. */
  ghost predicate NoObjectBounds(typeBounds: map<nat, seq<ParameterizedType>>)
  {
    forall pos, t :: pos in typeBounds && t in typeBounds[pos] ==> !IsObjectBound(t)
  }

  lemma {:induction false} BoundsFromDropsObject(env: Env, sig: string, end: nat, acc: seq<ParameterizedType>, tnf: bool)
    requires end < |sig| && sig[end] == ':'
    requires forall t :: t in acc ==> !IsObjectBound(t)
    ensures forall t :: t in BoundsFrom(env, sig, end, acc, tnf).types ==> !IsObjectBound(t)
    decreases |sig| - end, 1
  {
    if end + 1 < |sig| {
      var e: nat := if sig[end + 1] == ':' then end + 1 else end;
      BoundsAfterDropsObject(env, sig, e, acc, tnf, TypeFrom(env, Corrected, sig[e + 1..]));
    }
  }

  lemma {:induction false} BoundsAfterDropsObject(env: Env, sig: string, e: nat, acc: seq<ParameterizedType>, tnf: bool,
                                                  o: Parse<Result>)
    requires e < |sig|
    requires o.Done? ==> o.value.nextPos <= |sig| - (e + 1)
    requires forall t :: t in acc ==> !IsObjectBound(t)
    ensures forall t :: t in BoundsAfter(env, sig, e, acc, tnf, o).types ==> !IsObjectBound(t)
    decreases |sig| - e, 0
  {
    if o.Done? {
      var r := o.value;
      var acc' := if IsObjectBound(r.parameterizedType) then acc else acc + [r.parameterizedType];
      var e' := r.nextPos + e + 1;
      assert forall t :: t in acc' ==> !IsObjectBound(t);
      if e' < |sig| && sig[e'] == ':' {
        BoundsFromDropsObject(env, sig, e', acc', tnf || r.typeNotFoundError);
      }
    }
  }

  lemma {:induction false} IterationDropsObject(cfg: Config, s: GenState, index: nat, first: bool)
    requires NoObjectBounds(s.typeBounds)
    ensures NoObjectBounds(Iteration(cfg, s, index, first).state.typeBounds)
  {
    var r := ScanEntry(cfg, s.scope, s.typeParameters, s.startPos, s.typeNotFoundError, index, first);
    if r.Some? {
      var sig := cfg.signature;
      var end := IndexOf(sig, ':', s.startPos);
      var name := sig[s.startPos..end];
      var scope' := if first then s.scope[name := TypeParameter(index, name, cfg.owner)] else s.scope;
      BoundsFromDropsObject(Env(scope', cfg.loadable, cfg.createStub), sig, end, [], s.typeNotFoundError);
      var s1 := if first then Created(s, TypeParameter(index, r.value.name, cfg.owner)) else s;
      FinishDropsObject(sig, s1, r.value.pos, r.value.bounds);
    }
  }

  lemma {:induction false} FinishDropsObject(sig: string, s: GenState, pos: nat, b: Bounds)
    requires b.status == Ok ==> b.end < |sig| && sig[b.end] != ':'
    requires NoObjectBounds(s.typeBounds) && forall t :: t in b.types ==> !IsObjectBound(t)
    ensures NoObjectBounds(Finish(sig, s, pos, b).state.typeBounds)
  {
  }

  lemma {:induction false} PassDropsObject(cfg: Config, s: GenState, index: nat, first: bool)
    requires NoObjectBounds(s.typeBounds)
    ensures NoObjectBounds(Pass(cfg, s, index, first).state.typeBounds)
    decreases |cfg.signature| - s.startPos
  {
    var o := Iteration(cfg, s, index, first);
    IterationDropsObject(cfg, s, index, first);
    if o.status == Ok && o.state.more {
      PassDropsObject(cfg, o.state, index + 1, first);
    }
  }

  /** Bounds equal to `java.lang.Object` are never recorded, by any pass. */
  lemma {:induction false} ObjectBoundsDropped(cfg: Config, s: GenState, ilp: nat)
    requires ilp <= 100 && NoObjectBounds(s.typeBounds)
    ensures NoObjectBounds(Go(cfg, s, ilp).state.typeBounds)
    decreases 100 - ilp
  {
    var o := Pass(cfg, Reset(s), 0, ilp == 0);
    PassDropsObject(cfg, Reset(s), 0, ilp == 0);
    if o.status == Ok && o.state.typeNotFoundError && ilp + 1 <= 100 {
      ObjectBoundsDropped(cfg, o.state, ilp + 1);
    }
  }

  /** Two states a later pass cannot tell apart. */
  ghost predicate SamePassInput(s: GenState, t: GenState)
  {
    s.scope == t.scope && s.typeParameters == t.typeParameters && s.startPos == t.startPos &&
    s.typeNotFoundError == t.typeNotFoundError
  }

  /** A later pass depends only on the scope, the type parameters and its cursor: from equal ones it ends alike. */
  lemma {:induction false} LaterPassesAgree(cfg: Config, s: GenState, t: GenState, index: nat)
    requires SamePassInput(s, t)
    ensures var o, p := Pass(cfg, s, index, false), Pass(cfg, t, index, false);
      o.status == p.status && SamePassInput(o.state, p.state) &&
      (o.status == Ok ==> o.state.endPos == p.state.endPos)
    decreases |cfg.signature| - s.startPos
  {
    var o, p := Iteration(cfg, s, index, false), Iteration(cfg, t, index, false);
    IterationsAgree(cfg, s, t, index);
    if o.status == Ok && o.state.more {
      LaterPassesAgree(cfg, o.state, p.state, index + 1);
    }
  }

  lemma {:induction false} IterationsAgree(cfg: Config, s: GenState, t: GenState, index: nat)
    requires SamePassInput(s, t)
    ensures var o, p := Iteration(cfg, s, index, false), Iteration(cfg, t, index, false);
      o.status == p.status && SamePassInput(o.state, p.state) &&
      (o.status == Ok ==> o.state.more == p.state.more && (!o.state.more ==> o.state.endPos == p.state.endPos))
  {
    assert ScanEntry(cfg, s.scope, s.typeParameters, s.startPos, s.typeNotFoundError, index, false)
        == ScanEntry(cfg, t.scope, t.typeParameters, t.startPos, t.typeNotFoundError, index, false);
  }

  /**
   * Retrying cannot resolve more than the second pass does: every later pass
   * repeats it, so a type still not found on the second pass makes the
   * decoder throw "In infinite loop".
   */
  lemma {:induction false} RetriesRepeat(cfg: Config, s: GenState, ilp: nat)
    requires 1 <= ilp <= 100
    requires var o := Pass(cfg, Reset(s), 0, false); o.status == Ok && o.state.typeNotFoundError
    ensures Go(cfg, s, ilp).status == Failed(UnsupportedOperation("In infinite loop"))
    decreases 100 - ilp
  {
    var o := Pass(cfg, Reset(s), 0, false);
    if ilp + 1 <= 100 {
      LaterPassKeeps(cfg, Reset(s), 0);
      LaterPassesAgree(cfg, Reset(o.state), Reset(s), 0);
      RetriesRepeat(cfg, o.state, ilp + 1);
    }
  }

  /** The whole run, told by its first two passes. */
  lemma {:induction false} SecondPassDecides(cfg: Config, s: GenState)
    ensures var first := Pass(cfg, Reset(s), 0, true);
      var second := Pass(cfg, Reset(first.state), 0, false);
      var o := Go(cfg, s, 0);
      (first.status != Ok || !first.state.typeNotFoundError ==> o == first) &&
      (first.status == Ok && first.state.typeNotFoundError ==>
         (second.status != Ok || !second.state.typeNotFoundError ==> o == second) &&
         (second.status == Ok && second.state.typeNotFoundError ==>
            o.status == Failed(UnsupportedOperation("In infinite loop"))))
  {
    var first := Pass(cfg, Reset(s), 0, true);
    if first.status == Ok && first.state.typeNotFoundError {
      var second := Pass(cfg, Reset(first.state), 0, false);
      if second.status == Ok && second.state.typeNotFoundError {
        RetriesRepeat(cfg, first.state, 1);
      }
    }
  }

  // ---------------------------------------------------------------------------
  // the decoder

  class ParseGenerics {
    const typeParameterContext: TypeParameterContext
    const owner: string
    const loadable: set<string>
    const signature: string
    const createStub: bool

    var startPos: nat
    var endPos: nat
    var typeParameters: seq<TypeParameter>
    var typeBounds: map<nat, seq<ParameterizedType>>
    var more: bool
    var typeNotFoundError: bool
    /** Every type parameter handed to the `addTypeParameter` consumer so far, in order. */
    var accepted: seq<TypeParameter>

    ghost predicate Valid()
      reads this, typeParameterContext, typeParameterContext.Repr
    {
      typeParameterContext.Valid() && this !in typeParameterContext.Repr
    }

    ghost function Cfg(): Config
    {
      Config(owner, loadable, signature, createStub)
    }

    ghost function State(): GenState
      requires Valid()
      reads this, typeParameterContext, typeParameterContext.Repr
    {
      GenState(typeParameterContext.Bindings(), typeParameters, typeBounds, startPos, endPos, more, typeNotFoundError)
    }

    constructor (typeParameterContext: TypeParameterContext, owner: string, loadable: set<string>,
                 signature: string, createStub: bool)
      requires typeParameterContext.Valid()
      ensures Valid() && Cfg() == Config(owner, loadable, signature, createStub)
      ensures this.typeParameterContext == typeParameterContext
      ensures State() == GenState(typeParameterContext.Bindings(), [], map[], 0, 0, false, false)
      ensures accepted == []
    {
      this.typeParameterContext := typeParameterContext;
      this.owner := owner;
      this.loadable := loadable;
      this.signature := signature;
      this.createStub := createStub;
      startPos := 0;
      endPos := 0;
      typeParameters := [];
      typeBounds := map[];
      more := false;
      typeNotFoundError := false;
      accepted := [];
    }

    /**
     * goReturnEndPos: the index of the `>` that ends the section, or -1 when
     * a bound cannot be loaded; on success every type parameter is committed
     * and passed to the consumer, in order.
     */
    method GoReturnEndPos() returns (r: Parse<int>)
      requires Valid()
      modifies this, typeParameterContext
      ensures Valid()
      ensures var o := Go(Cfg(), old(State()), 0);
        r == ResultOf(o) && State() == o.state &&
        accepted == old(accepted) + (if o.status == Ok then typeParameters else [])
    {
      var status := RetryLoop();
      ghost var o := Go(Cfg(), old(State()), 0);
      match status {
        case LoadFailed => return Done(-1);
        case Failed(e) => return Threw(e);
        case Diverges => return Loops;
        case Ok =>
      }
      Commit();
      return Done(endPos);
    }

    /** The final loop of goReturnEndPos: each type parameter, committed, goes to the consumer in order. */
    method Commit()
      requires Valid()
      modifies this
      ensures Valid() && State() == old(State())
      ensures accepted == old(accepted) + typeParameters
    {
      var i := 0;
      while i < |typeParameters|
        invariant Valid() && State() == old(State()) && 0 <= i <= |typeParameters|
        invariant accepted == old(accepted) + typeParameters[..i]
      {
        accepted := accepted + [typeParameters[i]];
        i := i + 1;
      }
    }

    /** The `while (true)` loop of goReturnEndPos, without the final commits. */
    method RetryLoop() returns (status: Status)
      requires Valid()
      modifies this, typeParameterContext
      ensures Valid() && accepted == old(accepted)
      ensures Outcome(status, State()) == Go(Cfg(), old(State()), 0)
    {
      ghost var s0 := State();
      var infiniteLoopProtection: nat := 0;
      while true
        invariant Valid() && accepted == old(accepted) && infiniteLoopProtection <= 100
        invariant Go(Cfg(), s0, 0) == Go(Cfg(), State(), infiniteLoopProtection)
        decreases 100 - infiniteLoopProtection
      {
        ghost var s1 := State();
        startPos := 1;
        typeNotFoundError := false;
        assert State() == Reset(s1);
        status := ParsePass(infiniteLoopProtection == 0);
        GoUnfold(Cfg(), s1, infiniteLoopProtection, Outcome(status, State()));
        if status != Ok {
          return;
        }
        if !typeNotFoundError {
          return;
        }
        if infiniteLoopProtection + 1 > 100 {
          return Failed(UnsupportedOperation("In infinite loop"));
        }
        infiniteLoopProtection := infiniteLoopProtection + 1;
      }
    }

    /** One pass: the do/while loop over the entries, from the entry at position 1. */
    method ParsePass(firstIteration: bool) returns (status: Status)
      requires Valid()
      modifies this, typeParameterContext
      ensures Valid() && accepted == old(accepted)
      ensures Outcome(status, State()) == Pass(Cfg(), old(State()), 0, firstIteration)
    {
      ghost var s0 := State();
      var index: nat := 0;
      status := IterativelyParseGenerics(index, firstIteration);
      index := index + 1;
      while status == Ok && more
        invariant Valid() && accepted == old(accepted)
        invariant status == Ok && more ==> startPos <= |signature|
        invariant Pass(Cfg(), s0, 0, firstIteration)
          == if status == Ok && more then Pass(Cfg(), State(), index, firstIteration) else Outcome(status, State())
        decreases if status == Ok && more then |signature| - startPos + 1 else 0
      {
        status := IterativelyParseGenerics(index, firstIteration);
        index := index + 1;
      }
    }

    /** iterativelyParseGenerics: one `Name:` entry and its bounds. */
    method IterativelyParseGenerics(index: nat, firstIteration: bool) returns (status: Status)
      requires Valid()
      modifies this, typeParameterContext
      ensures Valid() && accepted == old(accepted)
      ensures Outcome(status, State()) == Iteration(Cfg(), old(State()), index, firstIteration)
      ensures status == Ok && more ==> old(startPos) < startPos < |signature|
    {
      ghost var s := State();
      var end := IndexOf(signature, ':', startPos);
      if end < 0 {
        return Failed(IndexOutOfBounds);
      }
      if !firstIteration && index >= |typeParameters| {
        return Failed(IndexOutOfBounds);
      }
      var name := signature[startPos..end];
      var pos: nat;
      if firstIteration {
        var typeParameter := TypeParameter(index, name, owner);
        pos := |typeParameters|;
        typeParameters := typeParameters + [typeParameter];
        typeParameterContext.Add(typeParameter);
        assert State() == Created(s, typeParameter);
      } else {
        pos := index;
      }
      ghost var s1 := State();
      var b := ParseBounds(end);
      status := Conclude(pos, b);
      IterationIs(Cfg(), s, index, firstIteration, end, s1, pos, b);
    }

    /** The end of iterativelyParseGenerics: set the bounds, then note whether `>` ends the section. */
    method Conclude(pos: nat, b: Bounds) returns (status: Status)
      requires Valid() && (b.status == Ok ==> b.end < |signature| && signature[b.end] != ':')
      modifies this
      ensures Valid() && accepted == old(accepted)
      ensures Outcome(status, State()) == Finish(signature, old(State()), pos, b)
    {
      typeNotFoundError := b.typeNotFoundError;
      if b.status != Ok {
        return b.status;
      }
      typeBounds := typeBounds[pos := b.types];
      if signature[b.end] == '>' {
        more := false;
        endPos := b.end;
      } else {
        more := true;
        startPos := b.end;
      }
      return Ok;
    }

    /** The `while (atEnd == COLON)` loop, from the colon at `end`. */
    method ParseBounds(end: nat) returns (b: Bounds)
      requires Valid() && end < |signature| && signature[end] == ':'
      ensures b == BoundsFrom(EnvOf(typeParameterContext, loadable, createStub), signature, end, [], typeNotFoundError)
    {
      ghost var env := EnvOf(typeParameterContext, loadable, createStub);
      ghost var goal := BoundsFrom(env, signature, end, [], typeNotFoundError);
      var e: nat := end;
      var typeBoundList: seq<ParameterizedType> := [];
      var tnf := typeNotFoundError;
      while true
        invariant e < |signature| && signature[e] == ':'
        invariant goal == BoundsFrom(env, signature, e, typeBoundList, tnf)
        decreases |signature| - e
      {
        var stop, next := BoundStep(e, typeBoundList, tnf);
        if stop {
          return next;
        }
        e, typeBoundList, tnf := next.end, next.types, next.typeNotFoundError;
      }
    }

    /**
     * One turn of the bounds loop from the colon at `colon`: either the
     * outcome of the whole loop, or the list, flag and position of the next
     * colon to go on from.
     */
    method BoundStep(colon: nat, acc: seq<ParameterizedType>, tnf: bool) returns (stop: bool, b: Bounds)
      requires Valid() && colon < |signature| && signature[colon] == ':'
      ensures stop ==> b == BoundsFrom(EnvOf(typeParameterContext, loadable, createStub), signature, colon, acc, tnf)
      ensures !stop ==> colon < b.end < |signature| && signature[b.end] == ':'
      ensures !stop ==>
        BoundsFrom(EnvOf(typeParameterContext, loadable, createStub), signature, colon, acc, tnf) ==
        BoundsFrom(EnvOf(typeParameterContext, loadable, createStub), signature, b.end, b.types, b.typeNotFoundError)
    {
      ghost var env := EnvOf(typeParameterContext, loadable, createStub);
      if colon + 1 >= |signature| {
        return true, Bounds(Failed(IndexOutOfBounds), acc, colon, tnf);
      }
      var e := colon;
      var charAfterColon := signature[e + 1];
      if charAfterColon == ':' {
        e := e + 1;
      }
      var result := From(typeParameterContext, loadable, signature[e + 1..], createStub);
      BoundsUnfold(env, signature, colon, e, acc, tnf, result);
      match result {
        case Null => return true, Bounds(LoadFailed, acc, e, tnf);
        case Threw(x) => return true, Bounds(Failed(x), acc, e, tnf);
        case Loops => return true, Bounds(Diverges, acc, e, tnf);
        case Done(r) =>
          var typeBoundList := if IsObjectBound(r.parameterizedType) then acc else acc + [r.parameterizedType];
          var e' := r.nextPos + e + 1;
          if e' >= |signature| {
            return true, Bounds(Failed(IndexOutOfBounds), typeBoundList, e', tnf);
          }
          BoundsNext(env, signature, e, acc, tnf, r, typeBoundList, e', tnf || r.typeNotFoundError);
          b := Bounds(Ok, typeBoundList, e', tnf || r.typeNotFoundError);
          stop := signature[e'] != ':';
      }
    }
  }
}
