/**
 * Type-variable substitution maps (TypeParameterMap): an immutable binding of
 * named types to parameterized types, and the merge of two such bindings,
 * which refuses a result in which some type variable is bound, through other
 * type variables, back to itself.
 */
module TypeParameterMap {
  import opened JavaLang
  import opened JavaTypes

  /** A named type: a type parameter or a type. The bindings use them as keys. */
  datatype NamedType = OfTypeParameter(typeParameter: TypeParameter) | OfTypeInfo(typeInfo: TypeInfo)

  type Bindings = map<NamedType, ParameterizedType>

  /** The record: a binding map, never null (a Dafny map is a value, so there is nothing to reject). */
  datatype TypeParameterMap = TypeParameterMap(bindings: Bindings)

  const EMPTY: TypeParameterMap := TypeParameterMap(map[])

  lemma EmptyBindsNothing(t: NamedType)
    ensures t !in EMPTY.bindings
  {
  }

  // ---------------------------------------------------------------------------
  // following a chain of variable-to-variable bindings
  // ---------------------------------------------------------------------------

  /** The next type in the chain: the type parameter `s` is bound to, if it is bound to one. */
  function Next(m: Bindings, s: NamedType): (r: Option<NamedType>)
    ensures r.Some? ==> s in m
  {
    if s in m && m[s].TypeVariable? then Some(OfTypeParameter(m[s].typeParameter)) else None
  }

  /** The `n`-th element of the chain that starts at `s`, if the chain is that long. */
  function Iterate(m: Bindings, s: NamedType, n: nat): Option<NamedType>
  {
    if n == 0 then Some(s)
    else match Iterate(m, s, n - 1)
      case None => None
      case Some(x) => Next(m, x)
  }

  /** Some element of the chain from `start` occurs twice. */
  ghost predicate Repeats(m: Bindings, start: NamedType)
  {
    exists i: nat, j: nat :: i < j && Iterate(m, start, i).Some? && Iterate(m, start, i) == Iterate(m, start, j)
  }

  /** Some binding leads back to its own key. */
  ghost predicate HasCycles(m: Bindings)
  {
    exists start :: start in m && Repeats(m, start)
  }

  /** A type that is bound, through `n >= 1` variable-to-variable steps, to itself. */
  ghost predicate OnCycle(m: Bindings, x: NamedType)
  {
    exists n: nat :: 1 <= n && Iterate(m, x, n) == Some(x)
  }

  lemma {:induction false} IterateNoneStays(m: Bindings, s: NamedType, i: nat, j: nat)
    requires i <= j && Iterate(m, s, i).None?
    ensures Iterate(m, s, j).None?
    decreases j - i
  {
    if i < j {
      IterateNoneStays(m, s, i, j - 1);
    }
  }

  /** Walking `a` steps and then `b` steps is walking `a + b` steps. */
  lemma {:induction false} IterateAdd(m: Bindings, s: NamedType, a: nat, b: nat)
    requires Iterate(m, s, a).Some?
    ensures Iterate(m, Iterate(m, s, a).value, b) == Iterate(m, s, a + b)
  {
    if b > 0 {
      IterateAdd(m, s, a, b - 1);
    }
  }

  /** The chains that contain a repetition are exactly those through a cycle. */
  lemma HasCyclesIffOnCycle(m: Bindings)
    ensures HasCycles(m) <==> exists x :: x in m && OnCycle(m, x)
  {
    if HasCycles(m) {
      var start :| start in m && Repeats(m, start);
      var i: nat, j: nat :| i < j && Iterate(m, start, i).Some? && Iterate(m, start, i) == Iterate(m, start, j);
      var x := Iterate(m, start, i).value;
      IterateAdd(m, start, i, j - i);
      assert Iterate(m, x, j - i) == Some(x);
      assert Next(m, x).Some? by {
        assert Iterate(m, x, 1) == Next(m, x);
        if Next(m, x).None? {
          IterateNoneStays(m, x, 1, j - i);
        }
      }
      assert x in m && OnCycle(m, x);
    }
    if exists x :: x in m && OnCycle(m, x) {
      var x :| x in m && OnCycle(m, x);
      var n: nat :| 1 <= n && Iterate(m, x, n) == Some(x);
      assert Iterate(m, x, 0) == Some(x);
      assert Repeats(m, x);
    }
  }

  /** A chain whose first `n + 1` elements are distinct and which ends after them never repeats. */
  lemma NoRepeat(m: Bindings, start: NamedType, n: nat)
    requires Iterate(m, start, n + 1).None?
    requires forall i: nat, j: nat :: i < j <= n ==> Iterate(m, start, i) != Iterate(m, start, j)
    ensures !Repeats(m, start)
  {
    forall i: nat, j: nat | i < j && Iterate(m, start, i).Some?
      ensures Iterate(m, start, i) != Iterate(m, start, j)
    {
      if n < j {
        IterateNoneStays(m, start, n + 1, j);
      }
    }
  }

  // ---------------------------------------------------------------------------
  // containsCycles
  // ---------------------------------------------------------------------------

  /** `p` lists the first `|p|` elements of the chain from `start`. */
  ghost predicate ChainPrefix(m: Bindings, start: NamedType, p: seq<NamedType>)
  {
    forall k :: 0 <= k < |p| ==> Iterate(m, start, k) == Some(p[k])
  }

  ghost predicate Distinct(p: seq<NamedType>)
  {
    forall i, j :: 0 <= i < j < |p| ==> p[i] != p[j]
  }

  lemma DistinctSnoc(p: seq<NamedType>, s: NamedType)
    requires Distinct(p) && s !in p
    ensures Distinct(p + [s]) && forall x :: x in p + [s] <==> x in p || x == s
  {
  }

  lemma ChainExtend(m: Bindings, start: NamedType, p: seq<NamedType>)
    requires ChainPrefix(m, start, p) && |p| > 0 && Next(m, p[|p| - 1]).Some?
    ensures ChainPrefix(m, start, p + [Next(m, p[|p| - 1]).value])
  {
    assert Iterate(m, start, |p|) == Next(m, p[|p| - 1]);
  }

  /** The chain comes back to an element it already passed. */
  lemma FoundRepeat(m: Bindings, start: NamedType, path: seq<NamedType>, s: NamedType)
    requires ChainPrefix(m, start, path + [s]) && s in path
    ensures Repeats(m, start)
  {
    var i :| 0 <= i < |path| && path[i] == s;
    assert (path + [s])[i] == s && (path + [s])[|path|] == s;
    assert Iterate(m, start, i) == Iterate(m, start, |path|);
  }

  /** The chain ends after distinct elements only. */
  lemma EndsDistinct(m: Bindings, start: NamedType, path: seq<NamedType>, s: NamedType)
    requires ChainPrefix(m, start, path + [s]) && Distinct(path) && s !in path && Next(m, s).None?
    ensures !Repeats(m, start)
  {
    var p := path + [s];
    var n := |path|;
    assert Iterate(m, start, n) == Some(s);
    assert Iterate(m, start, n + 1).None?;
    forall i: nat, j: nat | i < j <= n ensures Iterate(m, start, i) != Iterate(m, start, j) {
      assert Iterate(m, start, i) == Some(p[i]) && Iterate(m, start, j) == Some(p[j]);
      if j < n {
        assert p[i] == path[i] && p[j] == path[j];
      } else {
        assert p[i] == path[i];
      }
    }
    NoRepeat(m, start, n);
  }

  /**
   * Follows the bindings from `start` while the bound value is a type variable,
   * remembering the visited types; true as soon as one comes back.
   */
  method ContainsCyclesFrom(start: NamedType, m: Bindings) returns (found: bool)
    ensures found <==> Repeats(m, start)
  {
    var visited: set<NamedType> := {};
    var s := start;
    ghost var path: seq<NamedType> := [];
    while true
      invariant visited <= m.Keys
      invariant ChainPrefix(m, start, path + [s])
      invariant forall x :: x in visited <==> x in path
      invariant Distinct(path)
      decreases |m.Keys - visited|
    {
      if s in visited {
        FoundRepeat(m, start, path, s);
        return true;
      }
      ghost var before := visited;
      visited := visited + {s};
      if s in m && m[s].TypeVariable? {
        assert m.Keys - visited < m.Keys - before;
        ChainExtend(m, start, path + [s]);
        DistinctSnoc(path, s);
        path := path + [s];
        s := OfTypeParameter(m[s].typeParameter);
      } else {
        EndsDistinct(m, start, path, s);
        return false;
      }
    }
  }

  /** True when the chain from some key contains a repetition. */
  method ContainsCycles(m: Bindings) returns (found: bool)
    ensures found <==> HasCycles(m)
  {
    var keys := m.Keys;
    while keys != {}
      invariant keys <= m.Keys
      invariant forall start :: start in m.Keys - keys ==> !Repeats(m, start)
      decreases |keys|
    {
      var start :| start in keys;
      var c := ContainsCyclesFrom(start, m);
      if c {
        return true;
      }
      keys := keys - {start};
    }
    return false;
  }

  // ---------------------------------------------------------------------------
  // merge
  // ---------------------------------------------------------------------------

  /** The value `merge` returns. */
  ghost function MergeResult(base: TypeParameterMap, other: TypeParameterMap): TypeParameterMap
  {
    if other.bindings == map[] then base
    else if base.bindings == map[] then other
    else
      var joined := base.bindings + other.bindings;
      if |joined| > 1 && HasCycles(joined) then base else TypeParameterMap(joined)
  }

  /**
   * An empty operand gives the other one; otherwise the union, the argument's
   * bindings winning, unless that union has more than one entry and a cycle.
   */
  method Merge(base: TypeParameterMap, other: TypeParameterMap) returns (r: TypeParameterMap)
    ensures r == MergeResult(base, other)
  {
    if other.bindings == map[] {
      return base;
    }
    if base.bindings == map[] {
      return other;
    }
    var joined := base.bindings + other.bindings;
    if |joined| > 1 {
      var c := ContainsCycles(joined);
      if c {
        return base;
      }
    }
    return TypeParameterMap(joined);
  }

  /** EMPTY is neutral on both sides. */
  lemma MergeEmpty(t: TypeParameterMap)
    ensures MergeResult(t, EMPTY) == t && MergeResult(EMPTY, t) == t
  {
  }

  /** Unless refused, the merge binds every key of either operand, the argument winning. */
  lemma MergeBindings(base: TypeParameterMap, other: TypeParameterMap)
    requires MergeResult(base, other) != base
    ensures MergeResult(base, other).bindings.Keys == base.bindings.Keys + other.bindings.Keys
    ensures forall k :: k in other.bindings ==> MergeResult(base, other).bindings[k] == other.bindings[k]
    ensures forall k :: k in base.bindings && k !in other.bindings ==>
      MergeResult(base, other).bindings[k] == base.bindings[k]
  {
  }

  /** A merge result with more than one binding that is not `base` has no cycle. */
  lemma MergeAcyclic(base: TypeParameterMap, other: TypeParameterMap)
    requires base.bindings != map[] && other.bindings != map[]
    requires var r := MergeResult(base, other); r != base && |r.bindings| > 1
    ensures !exists x :: x in MergeResult(base, other).bindings && OnCycle(MergeResult(base, other).bindings, x)
  {
    HasCyclesIffOnCycle(MergeResult(base, other).bindings);
  }

  /** A single binding of a variable to itself passes: the size test skips the cycle check. */
  lemma SelfBindingKept(tp: TypeParameter, a: ParameterizedType)
    ensures var t := OfTypeParameter(tp);
      var r := MergeResult(TypeParameterMap(map[t := a]), TypeParameterMap(map[t := TypeVariable(tp, 0, NoWildcard)]));
      r.bindings == map[t := TypeVariable(tp, 0, NoWildcard)] && OnCycle(r.bindings, t)
  {
    var t := OfTypeParameter(tp);
    var m := map[t := TypeVariable(tp, 0, NoWildcard)];
    assert map[t := a] + m == m;
    assert |m| == 1;
    assert Iterate(m, t, 1) == Some(t);
  }

  /** Two variables bound to each other: the merge is refused and `base` comes back. */
  lemma SwapRefused(t1: TypeParameter, t2: TypeParameter)
    requires t1 != t2
    ensures var a := OfTypeParameter(t1); var b := OfTypeParameter(t2);
      var base := TypeParameterMap(map[a := TypeVariable(t2, 0, NoWildcard)]);
      MergeResult(base, TypeParameterMap(map[b := TypeVariable(t1, 0, NoWildcard)])) == base
  {
    var a := OfTypeParameter(t1);
    var b := OfTypeParameter(t2);
    var joined := map[a := TypeVariable(t2, 0, NoWildcard)] + map[b := TypeVariable(t1, 0, NoWildcard)];
    assert joined.Keys == {a, b};
    assert |joined| == 2;
    assert Iterate(joined, a, 1) == Some(b);
    assert Iterate(joined, a, 2) == Some(a);
    assert Repeats(joined, a) by {
      assert Iterate(joined, a, 0) == Some(a);
    }
  }
}
