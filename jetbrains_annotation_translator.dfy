/**
 * JetBrainsAnnotationTranslator: the annotations an external annotation
 * store attaches to types, fields, methods and parameters, translated into
 * annotation expressions. JetBrains' @NotNull becomes e2immu's @NotNull on
 * parameters only; an annotation from the `org.e2immu.annotation` package is
 * copied with `contract=true` in front of its own key-value pairs; all
 * others are dropped. Values are strings, converted to booleans, Object
 * array initializers, int constants or string constants.
 */
module JetBrainsAnnotationTranslator {
  import opened JavaLang
  import opened JavaTypes
  import opened Expressions

  const ORG_JETBRAINS_ANNOTATIONS_NOTNULL: string := "org.jetbrains.annotations.NotNull"
  const E2IMMU: string := "org.e2immu.annotation"
  /** The canonical name of e2immu's own @NotNull. */
  const E2IMMU_NOTNULL: string := "org.e2immu.annotation.NotNull"
  /** The key of the pair every copied e2immu annotation starts with. */
  const CONTRACT: string := "contract"

  /** A key-value pair of the annotation store: both sides are text. */
  datatype KeyValue = KeyValue(name: string, value: string)

  /** An annotation of the annotation store: its fully qualified name and its pairs. */
  datatype StoreAnnotation = StoreAnnotation(name: string, values: seq<KeyValue>)

  /** The annotation store's entry for one parameter of a method: the parameter's index and its annotations. */
  datatype ParameterItem = ParameterItem(index: int, annotations: seq<StoreAnnotation>)

  /** The annotation store's entry for a method: its own annotations and those of its parameters. */
  datatype MethodItem = MethodItem(annotations: seq<StoreAnnotation>, parameterItems: seq<ParameterItem>)

  /** Whether the annotations go onto a parameter's builder or onto any other builder. */
  datatype BuilderKind = ParameterBuilder | OtherBuilder

  // ---------------------------------------------------------------------------
  // convert

  /** Every piece `split` returns is at most as long as the string split. */
  lemma {:induction false} SplitPiecesNoLonger(s: string, sep: char)
    ensures forall k :: 0 <= k < |Split(s, sep)| ==> |Split(s, sep)[k]| <= |s|
  {
    SplitPieces(s, sep);
    forall k | 0 <= k < |Split(s, sep)| ensures |Split(s, sep)[k]| <= |s| {
      PieceLength(s, sep, k);
    }
  }

  /**
   * convert: "true" and "false" are the boolean constants; a string longer
   * than two characters between braces is an Object array of its
   * comma-separated parts, each converted; what parseInt accepts is an int;
   * anything else stays a string.
   */
  function Convert(s: string): Expression
    decreases |s|, 1
  {
    if s == "true" then BooleanConstant(true)
    else if s == "false" then BooleanConstant(false)
    else if |s| > 2 && s[0] == '{' && s[|s| - 1] == '}' then
      var inner := s[1..|s| - 1];
      SplitPiecesNoLonger(inner, ',');
      ArrayInitializer(ObjectType, ConvertAll(Split(inner, ','), |s|))
    else
      match ParseInt(s)
      case Some(i) => IntConstant(i)
      case None => StringConstant(s)
  }

  /** The parts converted one by one, in order; `bound` exceeds every part's length. */
  function ConvertAll(parts: seq<string>, bound: nat): (r: seq<Expression>)
    requires forall k :: 0 <= k < |parts| ==> |parts[k]| < bound
    ensures |r| == |parts| && forall k :: 0 <= k < |parts| ==> r[k] == Convert(parts[k])
    decreases bound, 0, |parts|
  {
    if parts == [] then [] else [Convert(parts[0])] + ConvertAll(parts[1..], bound)
  }

  /** Every 32-bit int written the way Integer.toString writes it converts back to that int. */
  lemma ConvertIntRoundTrip(i: int)
    requires IsInt32(i)
    ensures Convert(IntToString(i)) == IntConstant(i)
  {
    var s := IntToString(i);
    ParseIntToString(i);
    assert s[0] == '-' || IsDigit(s[0]);
    assert s != "true" && s != "false" && s[0] != '{';
  }

  /** A join is at least as long as its last part. */
  lemma {:induction false} JoinEndsWithLast(parts: seq<string>, sep: string)
    requires |parts| >= 1
    ensures |Join(parts, sep)| >= |parts[|parts| - 1]|
  {
  }

  /** A string longer than two characters between braces converts to the Object array of its split contents. */
  lemma ConvertBraces(s: string)
    requires |s| > 2 && s[0] == '{' && s[|s| - 1] == '}'
    ensures Convert(s).ArrayInitializer? && Convert(s).commonType == ObjectType
    ensures var parts := Split(s[1..|s| - 1], ',');
      |Convert(s).expressions| == |parts| && forall k :: 0 <= k < |parts| ==> Convert(s).expressions[k] == Convert(parts[k])
  {
    assert s != "true" && s != "false" by {
      assert s[0] != "true"[0] && s[0] != "false"[0];
    }
  }

  /** Splitting a comma-join of comma-free parts, the last of them not empty, gives the parts back. */
  lemma SplitOfJoin(parts: seq<string>)
    requires |parts| >= 1 && parts[|parts| - 1] != ""
    requires forall k :: 0 <= k < |parts| ==> ',' !in parts[k]
    ensures Split(Join(parts, ","), ',') == parts
  {
    var inner := Join(parts, ",");
    PiecesOfJoin(parts, ',');
    if ',' in inner {
      assert DropTrailingEmpty(parts) == parts;
    } else {
      PiecesWithoutSeparator(inner, ',');
      IndexOfFirst(inner, ',', 0);
    }
  }

  /**
   * A brace-delimited, comma-separated list of comma-free parts whose last
   * part is not empty converts to the Object array of the converted parts,
   * in order.
   */
  lemma {:induction false} ConvertArray(parts: seq<string>)
    requires |parts| >= 1 && parts[|parts| - 1] != ""
    requires forall k :: 0 <= k < |parts| ==> ',' !in parts[k]
    ensures var r := Convert("{" + Join(parts, ",") + "}");
      r.ArrayInitializer? && r.commonType == ObjectType && |r.expressions| == |parts| &&
      forall k :: 0 <= k < |parts| ==> r.expressions[k] == Convert(parts[k])
  {
    var inner := Join(parts, ",");
    var s := "{" + inner + "}";
    JoinEndsWithLast(parts, ",");
    assert s[1..|s| - 1] == inner;
    ConvertBraces(s);
    SplitOfJoin(parts);
  }

  // ---------------------------------------------------------------------------
  // toAnnotationExpression and mapAnnotation(s)

  /** The store's key-value pairs, each value converted, in order. */
  function ConvertedPairs(values: seq<KeyValue>): seq<KeyValuePair>
  {
    seq(|values|, k requires 0 <= k < |values| => KeyValuePair(values[k].name, Convert(values[k].value)))
  }

  /** The annotation toAnnotationExpression builds: contract=true first, then the store's pairs. */
  function AnnotationOf(a: StoreAnnotation): (r: AnnotationExpression)
    ensures r.typeFqn == a.name && |r.keyValuePairs| == |a.values| + 1
    ensures r.keyValuePairs[0] == KeyValuePair(CONTRACT, BooleanConstant(true))
    ensures forall k :: 0 <= k < |a.values| ==>
      r.keyValuePairs[k + 1].key == a.values[k].name && r.keyValuePairs[k + 1].value == Convert(a.values[k].value)
  {
    AnnotationExpression(a.name, [KeyValuePair(CONTRACT, BooleanConstant(true))] + ConvertedPairs(a.values))
  }

  /** toAnnotationExpression: the builder receives contract=true, then each pair of the store in turn. */
  method ToAnnotationExpression(a: StoreAnnotation) returns (ae: AnnotationExpression)
    ensures ae == AnnotationOf(a)
  {
    var pairs := [KeyValuePair(CONTRACT, BooleanConstant(true))];
    var i := 0;
    while i < |a.values|
      invariant 0 <= i <= |a.values|
      invariant pairs == [KeyValuePair(CONTRACT, BooleanConstant(true))] + ConvertedPairs(a.values[..i])
    {
      assert ConvertedPairs(a.values[..i + 1]) == ConvertedPairs(a.values[..i]) + [KeyValuePair(a.values[i].name, Convert(a.values[i].value))];
      pairs := pairs + [KeyValuePair(a.values[i].name, Convert(a.values[i].value))];
      i := i + 1;
    }
    assert a.values[..i] == a.values;
    ae := AnnotationExpression(a.name, pairs);
  }

  /** What mapAnnotation adds for one store annotation: nothing or one annotation. */
  function Translated(a: StoreAnnotation, kind: BuilderKind): (r: seq<AnnotationExpression>)
    ensures |r| <= 1
  {
    if a.name == ORG_JETBRAINS_ANNOTATIONS_NOTNULL then
      (if kind == ParameterBuilder then [AnnotationExpression(E2IMMU_NOTNULL, [])] else [])
    else if StartsWith(a.name, E2IMMU) then [AnnotationOf(a)]
    else []
  }

  /** What mapAnnotations adds for a list of store annotations, in the list's order. */
  function AllTranslated(annotations: seq<StoreAnnotation>, kind: BuilderKind): seq<AnnotationExpression>
  {
    if annotations == [] then []
    else AllTranslated(annotations[..|annotations| - 1], kind) + Translated(annotations[|annotations| - 1], kind)
  }

  /** mapAnnotation: the builder's list `current` gets the translation of one store annotation. */
  method MapAnnotation(a: StoreAnnotation, kind: BuilderKind, current: seq<AnnotationExpression>)
    returns (r: seq<AnnotationExpression>)
    ensures r == current + Translated(a, kind)
  {
    r := current;
    if a.name == ORG_JETBRAINS_ANNOTATIONS_NOTNULL {
      if kind == ParameterBuilder {
        r := r + [AnnotationExpression(E2IMMU_NOTNULL, [])];
      }
    } else if StartsWith(a.name, E2IMMU) {
      var ae := ToAnnotationExpression(a);
      r := r + [ae];
    }
  }

  /**
   * mapAnnotations: the builder's annotation list `current` is extended with
   * the translation of each store annotation, in order.
   */
  method MapAnnotations(annotations: seq<StoreAnnotation>, kind: BuilderKind, current: seq<AnnotationExpression>)
    returns (r: seq<AnnotationExpression>)
    ensures r == current + AllTranslated(annotations, kind)
  {
    r := current;
    var i := 0;
    while i < |annotations|
      invariant 0 <= i <= |annotations|
      invariant r == current + AllTranslated(annotations[..i], kind)
    {
      assert annotations[..i + 1][..i] == annotations[..i];
      r := MapAnnotation(annotations[i], kind, r);
      i := i + 1;
    }
    assert annotations[..i] == annotations;
  }

  /** Translating two lists one after the other is translating their concatenation. */
  lemma {:induction false} TranslatedInOrder(xs: seq<StoreAnnotation>, ys: seq<StoreAnnotation>, kind: BuilderKind)
    ensures AllTranslated(xs + ys, kind) == AllTranslated(xs, kind) + AllTranslated(ys, kind)
    decreases |ys|
  {
    if ys != [] {
      var ys', y := ys[..|ys| - 1], ys[|ys| - 1];
      assert ys == ys' + [y];
      assert xs + ys == (xs + ys') + [y];
      AllTranslatedSnoc(xs + ys', y, kind);
      AllTranslatedSnoc(ys', y, kind);
      TranslatedInOrder(xs, ys', kind);
    } else {
      assert xs + ys == xs;
    }
  }

  lemma AllTranslatedSnoc(xs: seq<StoreAnnotation>, a: StoreAnnotation, kind: BuilderKind)
    ensures AllTranslated(xs + [a], kind) == AllTranslated(xs, kind) + Translated(a, kind)
  {
    assert (xs + [a])[..|xs|] == xs;
  }

  /** The number of store annotations that produce an annotation on a builder of this kind. */
  function Recognised(annotations: seq<StoreAnnotation>, kind: BuilderKind): nat
  {
    if annotations == [] then 0
    else
      var a := annotations[|annotations| - 1];
      Recognised(annotations[..|annotations| - 1], kind) +
      (if (a.name == ORG_JETBRAINS_ANNOTATIONS_NOTNULL && kind == ParameterBuilder) ||
          (a.name != ORG_JETBRAINS_ANNOTATIONS_NOTNULL && StartsWith(a.name, E2IMMU)) then 1 else 0)
  }

  /**
   * Every annotation produced is in e2immu's annotation package, and there
   * is one per recognised store annotation: JetBrains' @NotNull counts on a
   * parameter's builder only.
   */
  lemma {:induction false} TranslationsAreE2immu(annotations: seq<StoreAnnotation>, kind: BuilderKind)
    ensures var r := AllTranslated(annotations, kind);
      |r| == Recognised(annotations, kind) &&
      forall k :: 0 <= k < |r| ==> StartsWith(r[k].typeFqn, E2IMMU)
    decreases |annotations|
  {
    if annotations != [] {
      TranslationsAreE2immu(annotations[..|annotations| - 1], kind);
      assert StartsWith(E2IMMU_NOTNULL, E2IMMU);
    }
  }
}
