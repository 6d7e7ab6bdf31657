/**
 * MyMethodVisitor: the method visitor that collects a method's parameters.
 * It keeps one parameter builder per parameter position; the local-variable
 * table (section 4.7.13 of the Java Virtual Machine Specification) names
 * them, slot 0 being `this` for an instance method; at the end the
 * parameters are added to the method in order, the annotation store's
 * parameter annotations are translated onto them, and the method is
 * registered with its type as a constructor or as a method.
 */
module MyMethodVisitor {
  import opened JavaLang
  import opened JavaTypes
  import opened Expressions
  import opened JetBrainsAnnotationTranslator

  /** A parameter builder: its position, the name the local-variable table gave it, its varargs flag, its annotations. */
  datatype ParamBuilder = ParamBuilder(index: int, name: Option<string>, isVarArgs: bool,
                                       annotations: seq<AnnotationExpression>)

  /** A parameter as the method's builder holds it once it is added. */
  datatype ParameterInfo = ParameterInfo(name: string, parameterType: ParameterizedType, index: int,
                                         isVarArgs: bool, annotations: seq<AnnotationExpression>)

  /** How visitEnd hands the finished method to its type. */
  datatype Registration = ConstructorAdded | MethodAdded

  /** The builder the constructor creates at position `i`: no name, not varargs, no annotations. */
  function FreshBuilder(i: int): ParamBuilder
  {
    ParamBuilder(i, None, false, [])
  }

  /** The local-variable slot of `this`: 1 for an instance method, none for a static one. */
  function Base(isStatic: bool): int
  {
    if isStatic then 0 else 1
  }

  // ---------------------------------------------------------------------------
  // visitLocalVariable

  /**
   * The builders after the local variable `name` in slot `index` is seen:
   * the slot names the parameter `index - base` when that is a position,
   * and marks the last one varargs when the method is; otherwise nothing
   * changes.
   */
  function LocalVariableSeen(bs: seq<ParamBuilder>, name: string, index: int, isStatic: bool,
                             lastParameterIsVarargs: bool): (r: seq<ParamBuilder>)
    ensures |r| == |bs|
  {
    var i := index - Base(isStatic);
    if 0 <= i < |bs| then
      bs[i := bs[i].(name := Some(name),
                     isVarArgs := if lastParameterIsVarargs && i == |bs| - 1 then true else bs[i].isVarArgs)]
    else bs
  }

  /**
   * Slot `k + base` names parameter `k`, and only that one; for an instance
   * method slot 0, `this`, names no parameter; slots beyond the parameters
   * (the method's other locals) name none. The index and the annotations of
   * every builder are kept.
   */
  lemma SlotNamesParameter(bs: seq<ParamBuilder>, name: string, slot: int, isStatic: bool,
                           lastParameterIsVarargs: bool, k: int)
    requires 0 <= k < |bs|
    ensures var r := LocalVariableSeen(bs, name, slot, isStatic, lastParameterIsVarargs);
      r[k].index == bs[k].index && r[k].annotations == bs[k].annotations &&
      (r[k].name == Some(name) <== slot == k + Base(isStatic)) &&
      (slot != k + Base(isStatic) ==> r[k] == bs[k])
    ensures !isStatic && slot == 0 ==> LocalVariableSeen(bs, name, slot, isStatic, lastParameterIsVarargs) == bs
    ensures slot >= |bs| + Base(isStatic) ==> LocalVariableSeen(bs, name, slot, isStatic, lastParameterIsVarargs) == bs
  {
  }

  // ---------------------------------------------------------------------------
  // the annotation store's parameter items

  /** How the store's annotations of a parameter are translated. */
  type Translation = seq<StoreAnnotation> -> seq<AnnotationExpression>

  /** mapAnnotations onto a parameter's builder. */
  function ParameterTranslation(annotations: seq<StoreAnnotation>): seq<AnnotationExpression>
  {
    AllTranslated(annotations, ParameterBuilder)
  }

  /**
   * One parameter item of the store: an item whose index is not below the
   * number of builders is ignored; one with annotations is translated onto
   * the builder at its index, which throws for a negative index.
   */
  function StoreItem(bs: seq<ParamBuilder>, item: ParameterItem, tr: Translation): (r: Try<seq<ParamBuilder>>)
    ensures r.Success? ==> |r.value| == |bs|
  {
    if item.index < |bs| && |item.annotations| > 0 then
      if item.index < 0 then Failure(IndexOutOfBounds)
      else
        var b := bs[item.index];
        Success(bs[item.index := b.(annotations := b.annotations + tr(item.annotations))])
    else Success(bs)
  }

  /** The store's parameter items, one after the other; the first that throws ends the walk. */
  function StoreMapped(bs: seq<ParamBuilder>, items: seq<ParameterItem>, tr: Translation): (r: Try<seq<ParamBuilder>>)
    ensures r.Success? ==> |r.value| == |bs|
    decreases |items|
  {
    if items == [] then Success(bs)
    else
      match StoreItem(bs, items[0], tr)
      case Failure(e) => Failure(e)
      case Success(bs') => StoreMapped(bs', items[1..], tr)
  }

  /** The translated store annotations of the items for parameter `k`, in the items' order. */
  function StoreAnnotationsFor(items: seq<ParameterItem>, k: int, tr: Translation): seq<AnnotationExpression>
    decreases |items|
  {
    if items == [] then [] else ItemAnnotationsFor(items[0], k, tr) + StoreAnnotationsFor(items[1..], k, tr)
  }

  /** The translated store annotations of one item for parameter `k`: none unless it has that index. */
  function ItemAnnotationsFor(item: ParameterItem, k: int, tr: Translation): seq<AnnotationExpression>
  {
    if item.index == k && |item.annotations| > 0 then tr(item.annotations) else []
  }

  /** Whether some item would index the builders below 0: one with a negative index and annotations. */
  predicate HasNegativeItem(items: seq<ParameterItem>)
  {
    exists j :: 0 <= j < |items| && NegativeItem(items[j])
  }

  predicate NegativeItem(item: ParameterItem)
  {
    item.index < 0 && |item.annotations| > 0
  }

  lemma NegativeItemSplit(items: seq<ParameterItem>)
    requires items != []
    ensures HasNegativeItem(items) <==> NegativeItem(items[0]) || HasNegativeItem(items[1..])
  {
    if HasNegativeItem(items[1..]) {
      var j :| 0 <= j < |items[1..]| && NegativeItem(items[1..][j]);
      assert items[j + 1] == items[1..][j];
    }
    if HasNegativeItem(items) {
      var j :| 0 <= j < |items| && NegativeItem(items[j]);
      if j > 0 { assert items[1..][j - 1] == items[j]; }
    }
  }

  /** One item throws exactly when it is negative; otherwise builder `k` gets the item's annotations for it. */
  lemma StoreItemLands(bs: seq<ParamBuilder>, item: ParameterItem, tr: Translation)
    ensures StoreItem(bs, item, tr).Failure? <==> NegativeItem(item)
    ensures StoreItem(bs, item, tr).Failure? ==> StoreItem(bs, item, tr).exception == IndexOutOfBounds
    ensures var r := StoreItem(bs, item, tr);
      r.Success? ==> forall k :: 0 <= k < |bs| ==>
        r.value[k] == bs[k].(annotations := bs[k].annotations + ItemAnnotationsFor(item, k, tr))
  {
    forall k | 0 <= k < |bs| && StoreItem(bs, item, tr).Success? && (item.index != k || |item.annotations| == 0)
      ensures bs[k].annotations + ItemAnnotationsFor(item, k, tr) == bs[k].annotations
    {
      assert ItemAnnotationsFor(item, k, tr) == [];
    }
  }

  /** The store's items throw exactly when one of them has a negative index and annotations. */
  lemma {:induction false} StoreFailsExactly(bs: seq<ParamBuilder>, items: seq<ParameterItem>, tr: Translation)
    ensures StoreMapped(bs, items, tr).Failure? <==> HasNegativeItem(items)
    ensures StoreMapped(bs, items, tr).Failure? ==> StoreMapped(bs, items, tr).exception == IndexOutOfBounds
    decreases |items|
  {
    if items == [] {
      assert !HasNegativeItem(items);
    } else {
      NegativeItemSplit(items);
      StoreItemLands(bs, items[0], tr);
      if StoreItem(bs, items[0], tr).Success? {
        StoreFailsExactly(StoreItem(bs, items[0], tr).value, items[1..], tr);
      }
    }
  }

  /**
   * When the items do not throw, each builder gets, after its own
   * annotations, the translations of the items with its index, in order,
   * and keeps everything else. Items whose index is past the last builder
   * reach no builder.
   */
  lemma {:induction false} StoreAnnotationsLand(bs: seq<ParamBuilder>, items: seq<ParameterItem>, tr: Translation)
    ensures var r := StoreMapped(bs, items, tr);
      r.Success? ==> forall k :: 0 <= k < |bs| ==>
        r.value[k] == bs[k].(annotations := bs[k].annotations + StoreAnnotationsFor(items, k, tr))
    decreases |items|
  {
    if items == [] {
      forall k | 0 <= k < |bs| ensures bs[k] == bs[k].(annotations := bs[k].annotations + StoreAnnotationsFor(items, k, tr)) {
        assert bs[k].annotations + [] == bs[k].annotations;
      }
    } else {
      StoreItemLands(bs, items[0], tr);
      var step := StoreItem(bs, items[0], tr);
      if step.Success? {
        var bs' := step.value;
        StoreAnnotationsLand(bs', items[1..], tr);
        var r := StoreMapped(bs, items, tr);
        assert r == StoreMapped(bs', items[1..], tr);
        if r.Success? {
          forall k | 0 <= k < |bs|
            ensures r.value[k] == bs[k].(annotations := bs[k].annotations + StoreAnnotationsFor(items, k, tr))
          {
            var own := ItemAnnotationsFor(items[0], k, tr);
            assert bs[k].annotations + own + StoreAnnotationsFor(items[1..], k, tr)
                == bs[k].annotations + (own + StoreAnnotationsFor(items[1..], k, tr));
          }
        }
      }
    }
  }

  // ---------------------------------------------------------------------------
  // the parameters visitEnd adds

  /** The number of builders before position `i` that have no name: the name factory's calls so far. */
  function UnnamedBefore(bs: seq<ParamBuilder>, i: nat): (r: nat)
    requires i <= |bs|
    ensures r <= i
  {
    if i == 0 then 0 else UnnamedBefore(bs, i - 1) + (if bs[i - 1].name.None? then 1 else 0)
  }

  /**
   * The name of parameter `i`: the one the local-variable table gave its
   * builder, or else the name factory's next name for its type, the factory
   * having been asked once for each unnamed parameter before it.
   */
  function NameOf(bs: seq<ParamBuilder>, types: seq<ParameterizedType>,
                  nameFor: (nat, ParameterizedType) -> string, i: nat): string
    requires i < |bs| && |bs| < |types|
  {
    if bs[i].name.Some? then bs[i].name.value else nameFor(UnnamedBefore(bs, i), types[i])
  }

  /**
   * The parameters visitEnd adds, from the builders once the store's items
   * are on them: parameter `i` has its position as index and the `i`-th
   * type, its builder's name (or a generated one) and annotations, and it is
   * varargs exactly when it is the last one of a varargs method.
   */
  function Committed(bs: seq<ParamBuilder>, types: seq<ParameterizedType>, lastParameterIsVarargs: bool,
                     nameFor: (nat, ParameterizedType) -> string): (r: seq<ParameterInfo>)
    requires |bs| < |types|
    ensures |r| == |bs|
    ensures forall i :: 0 <= i < |r| ==>
      r[i].index == i && r[i].parameterType == types[i] && r[i].annotations == bs[i].annotations &&
      (r[i].isVarArgs <==> lastParameterIsVarargs && i == |bs| - 1) &&
      (bs[i].name.Some? ==> r[i].name == bs[i].name.value)
  {
    seq(|bs|, i requires 0 <= i < |bs| => Entry(bs, types, lastParameterIsVarargs, nameFor, i))
  }

  /** Parameter `i` of Committed. */
  function Entry(bs: seq<ParamBuilder>, types: seq<ParameterizedType>, lastParameterIsVarargs: bool,
                 nameFor: (nat, ParameterizedType) -> string, i: nat): ParameterInfo
    requires i < |bs| < |types|
  {
    ParameterInfo(NameOf(bs, types, nameFor, i), types[i], i, lastParameterIsVarargs && i == |bs| - 1,
                  bs[i].annotations)
  }

  /**
   * The parameters as visitEnd is written: they are built before the
   * store's items are mapped onto the builders, and each takes its
   * builder's varargs flag, which replaces the one set just before it.
   */
  function CommittedAsWritten(bs: seq<ParamBuilder>, types: seq<ParameterizedType>,
                              nameFor: (nat, ParameterizedType) -> string): (r: seq<ParameterInfo>)
    requires |bs| < |types|
    ensures |r| == |bs|
  {
    seq(|bs|, i requires 0 <= i < |bs| =>
      ParameterInfo(NameOf(bs, types, nameFor, i), types[i], i, bs[i].isVarArgs, bs[i].annotations))
  }

  /**
   * As written, the last parameter of a varargs method whose class file
   * has no local-variable table is not varargs, and a parameter annotation
   * from the store never reaches the parameter.
   */
  lemma AsWrittenLosesVarargsAndStoreAnnotations(types: seq<ParameterizedType>,
                                                 nameFor: (nat, ParameterizedType) -> string)
    requires |types| == 2
    ensures var bs := [FreshBuilder(0)];
      var items := [ParameterItem(0, [StoreAnnotation(E2IMMU_NOTNULL, [])])];
      StoreMapped(bs, items, ParameterTranslation).Success? &&
      !CommittedAsWritten(bs, types, nameFor)[0].isVarArgs &&
      CommittedAsWritten(bs, types, nameFor)[0].annotations == [] &&
      Committed(StoreMapped(bs, items, ParameterTranslation).value, types, true, nameFor)[0].isVarArgs &&
      Committed(StoreMapped(bs, items, ParameterTranslation).value, types, true, nameFor)[0].annotations != []
  {
    var a := StoreAnnotation(E2IMMU_NOTNULL, []);
    assert StartsWith(E2IMMU_NOTNULL, E2IMMU);
    assert AllTranslated([a], ParameterBuilder) == [AnnotationOf(a)] by {
      assert [a][..0] == [];
    }
  }

  /**
   * The corrected order: every parameter carries its builder's annotations
   * followed by the store's annotations for its position, and only the
   * last parameter of a varargs method is varargs.
   */
  lemma StoreAnnotationsReachParameters(bs: seq<ParamBuilder>, items: seq<ParameterItem>,
                                        types: seq<ParameterizedType>, lastParameterIsVarargs: bool,
                                        nameFor: (nat, ParameterizedType) -> string)
    requires |bs| < |types| && !HasNegativeItem(items)
    ensures StoreMapped(bs, items, ParameterTranslation).Success?
    ensures var ps := Committed(StoreMapped(bs, items, ParameterTranslation).value, types, lastParameterIsVarargs, nameFor);
      |ps| == |bs| && forall i :: 0 <= i < |ps| ==>
        ps[i].annotations == bs[i].annotations + StoreAnnotationsFor(items, i, ParameterTranslation) &&
        (ps[i].isVarArgs <==> lastParameterIsVarargs && i == |bs| - 1)
  {
    StoreFailsExactly(bs, items, ParameterTranslation);
    StoreAnnotationsLand(bs, items, ParameterTranslation);
  }

  // ---------------------------------------------------------------------------
  // the visitor

  class MyMethodVisitor {
    /** The method's types from its descriptor: the parameter types, then the return type. */
    const types: seq<ParameterizedType>
    const numberOfParameters: nat
    const isStatic: bool
    const isConstructor: bool
    const lastParameterIsVarargs: bool
    /** The annotation store's entry for the method, if it has one. */
    const methodItem: Option<MethodItem>
    /** One builder per parameter position. */
    const parameterInspectionBuilders: array<ParamBuilder>
    /** The parameters added to the method's builder so far. */
    var parameters: seq<ParameterInfo>

    /**
     * One builder per parameter, at its own position; only the last builder
     * of a varargs method is ever marked varargs.
     */
    ghost predicate Valid()
      reads this, parameterInspectionBuilders
    {
      numberOfParameters == |types| - 1 && parameterInspectionBuilders.Length == numberOfParameters &&
      forall i :: 0 <= i < parameterInspectionBuilders.Length ==>
        parameterInspectionBuilders[i].index == i &&
        (parameterInspectionBuilders[i].isVarArgs ==> lastParameterIsVarargs && i == numberOfParameters - 1)
    }

    /** The builders, as a sequence. */
    ghost function Builders(): seq<ParamBuilder>
      reads this, parameterInspectionBuilders
    {
      parameterInspectionBuilders[..]
    }

    /**
     * One fresh builder per parameter, `types` holding the parameter types
     * and the return type (the class visitor throws before it gets here
     * when the list is empty).
     */
    constructor (types: seq<ParameterizedType>, isStatic: bool, isConstructor: bool, lastParameterIsVarargs: bool,
                 methodItem: Option<MethodItem>)
      requires |types| >= 1
      ensures Valid() && fresh(parameterInspectionBuilders)
      ensures this.types == types && numberOfParameters == |types| - 1
      ensures this.isStatic == isStatic && this.isConstructor == isConstructor
      ensures this.lastParameterIsVarargs == lastParameterIsVarargs && this.methodItem == methodItem
      ensures Builders() == seq(|types| - 1, i => FreshBuilder(i)) && parameters == []
    {
      var n := |types| - 1;
      var builders := new ParamBuilder[n];
      for i := 0 to n
        invariant forall k :: 0 <= k < i ==> builders[k] == FreshBuilder(k)
      {
        builders[i] := FreshBuilder(i);
      }
      this.types := types;
      numberOfParameters := n;
      this.isStatic := isStatic;
      this.isConstructor := isConstructor;
      this.lastParameterIsVarargs := lastParameterIsVarargs;
      this.methodItem := methodItem;
      parameterInspectionBuilders := builders;
      parameters := [];
    }

    /**
     * visitParameterAnnotation: the annotation goes onto the builder of the
     * parameter; a parameter that is not a position throws.
     */
    method VisitParameterAnnotation(parameter: int, annotation: AnnotationExpression) returns (thrown: Option<Exception>)
      requires Valid()
      modifies parameterInspectionBuilders
      ensures Valid()
      ensures thrown.Some? <==> !(0 <= parameter < numberOfParameters)
      ensures thrown.Some? ==> thrown.value == IndexOutOfBounds && Builders() == old(Builders())
      ensures thrown.None? ==>
        Builders() == old(Builders())[parameter := old(Builders())[parameter].(
                        annotations := old(Builders())[parameter].annotations + [annotation])]
    {
      if !(0 <= parameter < parameterInspectionBuilders.Length) {
        return Some(IndexOutOfBounds);
      }
      var pib := parameterInspectionBuilders[parameter];
      parameterInspectionBuilders[parameter] := pib.(annotations := pib.annotations + [annotation]);
      return None;
    }

    /** visitLocalVariable: the local variable in `index` names its parameter, if it is one. */
    method VisitLocalVariable(name: string, index: int)
      requires Valid()
      modifies parameterInspectionBuilders
      ensures Valid()
      ensures Builders() == LocalVariableSeen(old(Builders()), name, index, isStatic, lastParameterIsVarargs)
    {
      var base := if isStatic then 0 else 1;
      var i := index - base;
      if i >= 0 && i < numberOfParameters {
        var pib := parameterInspectionBuilders[i];
        pib := pib.(name := Some(name));
        if lastParameterIsVarargs && i == numberOfParameters - 1 {
          pib := pib.(isVarArgs := true);
        }
        parameterInspectionBuilders[i] := pib;
      }
    }

    /**
     * visitEnd, with the store's items mapped onto the builders before the
     * parameters are built from them: when an item throws, nothing is added
     * and the method is not registered; otherwise the parameters are added
     * in order and the method is registered as a constructor or a method.
     */
    method VisitEnd(nameFor: (nat, ParameterizedType) -> string) returns (r: Try<Registration>)
      requires Valid()
      modifies this, parameterInspectionBuilders
      ensures Valid()
      ensures var mapped := StoreMapped(old(Builders()), if methodItem.Some? then methodItem.value.parameterItems else [],
                                ParameterTranslation);
        if mapped.Failure? then
          r == Failure(mapped.exception) && parameters == old(parameters)
        else
          Builders() == mapped.value &&
          parameters == old(parameters) + Committed(mapped.value, types, lastParameterIsVarargs, nameFor) &&
          r == Success(if isConstructor then ConstructorAdded else MethodAdded)
    {
      var thrown := MapStoreItems();
      if thrown.Some? {
        return Failure(thrown.value);
      }
      AddParameters(nameFor);
      if isConstructor {
        return Success(ConstructorAdded);
      } else {
        return Success(MethodAdded);
      }
    }

    /** The store's parameter items, translated onto the builders of their positions. */
    method MapStoreItems() returns (thrown: Option<Exception>)
      requires Valid()
      modifies parameterInspectionBuilders
      ensures Valid()
      ensures var mapped := StoreMapped(old(Builders()), if methodItem.Some? then methodItem.value.parameterItems else [],
                                ParameterTranslation);
        (thrown.Some? <==> mapped.Failure?) &&
        (thrown.Some? ==> thrown.value == mapped.exception) &&
        (thrown.None? ==> Builders() == mapped.value)
    {
      if methodItem.None? {
        return None;
      }
      var items := methodItem.value.parameterItems;
      var i := 0;
      while i < |items|
        invariant 0 <= i <= |items| && Valid()
        invariant StoreMapped(old(Builders()), items, ParameterTranslation) == StoreMapped(Builders(), items[i..], ParameterTranslation)
      {
        var item := items[i];
        assert items[i..][1..] == items[i + 1..];
        if item.index < parameterInspectionBuilders.Length {
          if |item.annotations| > 0 {
            if item.index < 0 {
              return Some(IndexOutOfBounds);
            }
            var pib := parameterInspectionBuilders[item.index];
            var annotations := MapAnnotations(item.annotations, ParameterBuilder, pib.annotations);
            parameterInspectionBuilders[item.index] := pib.(annotations := annotations);
          }
        }
        i := i + 1;
      }
      assert items[i..] == [];
      return None;
    }

    /** The loop of visitEnd: each builder becomes a parameter of the method, in order. */
    method AddParameters(nameFor: (nat, ParameterizedType) -> string)
      requires Valid()
      modifies this
      ensures Valid() && Builders() == old(Builders())
      ensures parameters == old(parameters) + Committed(Builders(), types, lastParameterIsVarargs, nameFor)
    {
      ghost var bs := Builders();
      ghost var committed := Committed(bs, types, lastParameterIsVarargs, nameFor);
      var added := parameters;
      var unnamed := 0;
      var i := 0;
      while i < numberOfParameters
        invariant 0 <= i <= numberOfParameters
        invariant unnamed == UnnamedBefore(bs, i)
        invariant added == old(parameters) + committed[..i]
      {
        var pib := parameterInspectionBuilders[i];
        var parameterType := types[i];
        var name;
        if pib.name.None? {
          name := nameFor(unnamed, parameterType);
          unnamed := unnamed + 1;
        } else {
          name := pib.name.value;
        }
        var isVarArgs := false;
        if lastParameterIsVarargs && i == numberOfParameters - 1 {
          isVarArgs := true;
        }
        assert pib == bs[i];
        var parameter := ParameterInfo(name, parameterType, i, isVarArgs, pib.annotations);
        assert parameter == Entry(bs, types, lastParameterIsVarargs, nameFor, i) == committed[i];
        assert committed[..i + 1] == committed[..i] + [parameter];
        added := added + [parameter];
        i := i + 1;
      }
      assert committed[..i] == committed;
      parameters := added;
    }
  }
}
