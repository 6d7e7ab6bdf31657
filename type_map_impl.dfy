/**
 * The type map of the byte-code inspector's test set-up: types known by
 * fully qualified name with their inspection state, a queue of names still to
 * load from byte code, and the conversion of a class-file path into the name
 * of the type it holds.
 */
module TypeMapImpl {
  import opened JavaLang
  import opened JavaTypes
  import opened ResourcesImpl

  /** How far inspection of a type has come; only whether it is done matters here. */
  datatype InspectionState = InspectionState(isDone: bool)

  /** A known type with its state; `None` is the null state that addToTrie records. */
  datatype InspectionAndState = InspectionAndState(typeInfo: TypeInfo, state: Option<InspectionState>)

  /** A type loaded from byte code, with the state it was left in. */
  datatype TypeData = TypeData(typeInfo: TypeInfo, state: InspectionState)

  type Entries = map<string, InspectionAndState>

  function ToInspectionAndState(d: TypeData): InspectionAndState
  {
    InspectionAndState(d.typeInfo, Some(d.state))
  }

  function Name(d: TypeData): string { FullyQualifiedName(d.typeInfo) }

  /** Every entry is stored under the name of its own type. */
  predicate KeyedByName(entries: Entries)
  {
    forall n :: n in entries ==> FullyQualifiedName(entries[n].typeInfo) == n
  }

  /** get(fqn): the type stored under the name, if any. */
  function LookupType(entries: Entries, fqn: string): (r: Option<TypeInfo>)
    ensures r.Some? <==> fqn in entries
  {
    if fqn in entries then Some(entries[fqn].typeInfo) else None
  }

  // ---------------------------------------------------------------------------
  // loading a list of types

  /** The last type of the list with the given name, if any. */
  function LastNamed(list: seq<TypeData>, n: string): Option<TypeData>
    decreases |list|
  {
    if list == [] then None
    else
      var later := LastNamed(list[1..], n);
      if later.Some? then later else if Name(list[0]) == n then Some(list[0]) else None
  }

  lemma {:induction false} LastNamedIsLast(list: seq<TypeData>, n: string)
    ensures LastNamed(list, n).None? <==> forall k :: 0 <= k < |list| ==> Name(list[k]) != n
    ensures LastNamed(list, n).Some? ==>
      exists k :: 0 <= k < |list| && list[k] == LastNamed(list, n).value && Name(list[k]) == n &&
        forall l :: k < l < |list| ==> Name(list[l]) != n
    decreases |list|
  {
    if list != [] {
      var rest := list[1..];
      LastNamedIsLast(rest, n);
      assert forall k :: 1 <= k < |list| ==> list[k] == rest[k - 1];
      if LastNamed(rest, n).Some? {
        var k :| 0 <= k < |rest| && rest[k] == LastNamed(rest, n).value && Name(rest[k]) == n &&
          forall l :: k < l < |rest| ==> Name(rest[l]) != n;
        assert list[k + 1] == rest[k];
      }
    }
  }

  /** The loop's search: the last type of the list named `fqn`, else what was found before. */
  function Matching(fqn: string, list: seq<TypeData>, found: Option<TypeInfo>): Option<TypeInfo>
    decreases |list|
  {
    if list == [] then found
    else Matching(fqn, list[1..], if Name(list[0]) == fqn then Some(list[0].typeInfo) else found)
  }

  lemma {:induction false} MatchingIsLastNamed(fqn: string, list: seq<TypeData>, found: Option<TypeInfo>)
    ensures Matching(fqn, list, found) ==
      if LastNamed(list, fqn).Some? then Some(LastNamed(list, fqn).value.typeInfo) else found
    decreases |list|
  {
    if list != [] {
      MatchingIsLastNamed(fqn, list[1..], if Name(list[0]) == fqn then Some(list[0].typeInfo) else found);
    }
  }

  /** The corrected loop's store: every loaded type goes under its own name, in order. */
  function StoredAll(entries: Entries, list: seq<TypeData>): Entries
    decreases |list|
  {
    if list == [] then entries
    else StoredAll(entries[Name(list[0]) := ToInspectionAndState(list[0])], list[1..])
  }

  /**
   * After the store, a name that some loaded type carries holds the last of
   * them, and every other name holds what it held before.
   */
  lemma {:induction false} StoredAllHolds(entries: Entries, list: seq<TypeData>, n: string)
    ensures LastNamed(list, n).Some? ==>
      n in StoredAll(entries, list) && StoredAll(entries, list)[n] == ToInspectionAndState(LastNamed(list, n).value)
    ensures LastNamed(list, n).None? ==>
      (n in StoredAll(entries, list) <==> n in entries) &&
      (n in entries ==> StoredAll(entries, list)[n] == entries[n])
    decreases |list|
  {
    if list != [] {
      StoredAllHolds(entries[Name(list[0]) := ToInspectionAndState(list[0])], list[1..], n);
    }
  }

  lemma {:induction false} StoredAllKeyed(entries: Entries, list: seq<TypeData>)
    requires KeyedByName(entries)
    ensures KeyedByName(StoredAll(entries, list))
    decreases |list|
  {
    if list != [] {
      StoredAllKeyed(entries[Name(list[0]) := ToInspectionAndState(list[0])], list[1..]);
    }
  }

  /** The store as written: every loaded type goes under the queried name. */
  function StoredAllAsWritten(entries: Entries, fqn: string, list: seq<TypeData>): Entries
    decreases |list|
  {
    if list == [] then entries
    else StoredAllAsWritten(entries[fqn := ToInspectionAndState(list[0])], fqn, list[1..])
  }

  /**
   * Loading a type and its nested type under the store as written leaves the
   * nested type under the outer type's name and the nested name unknown.
   */
  lemma AsWrittenStoresNestedUnderOuterName()
    ensures var done := InspectionState(true);
      var list := [TypeData(Loaded("a.B"), done), TypeData(Loaded("a.B.C"), done)];
      var after := StoredAllAsWritten(map[], "a.B", list);
      Matching("a.B", list, None) == Some(Loaded("a.B")) &&
      LookupType(after, "a.B") == Some(Loaded("a.B.C")) &&
      LookupType(after, "a.B.C") == None &&
      !KeyedByName(after)
  {
    var done := InspectionState(true);
    var list := [TypeData(Loaded("a.B"), done), TypeData(Loaded("a.B.C"), done)];
    var m1 := map["a.B" := ToInspectionAndState(list[0])];
    var m2 := m1["a.B" := ToInspectionAndState(list[1])];
    assert list[1..] == [list[1]] && list[1..][1..] == [];
    assert StoredAllAsWritten(map[], "a.B", list) == StoredAllAsWritten(m1, "a.B", [list[1]]);
    assert StoredAllAsWritten(m1, "a.B", [list[1]]) == StoredAllAsWritten(m2, "a.B", []);
    assert Matching("a.B", list, None) == Matching("a.B", [list[1]], Some(Loaded("a.B")));
    assert Matching("a.B", [list[1]], Some(Loaded("a.B"))) == Matching("a.B", [], Some(Loaded("a.B")));
    assert m2 == map["a.B" := ToInspectionAndState(list[1])];
    assert FullyQualifiedName(m2["a.B"].typeInfo) == "a.B.C";
  }

  /**
   * get(fqn, complain) on the entries, with `loaded` the types the byte-code
   * inspector reads from the class file found for the name: a known type in
   * the null state fails on the state, a done one is returned, and otherwise
   * the loaded types are stored and the one named `fqn` is returned, the
   * assertion failing when there is none.
   */
  function GetSpec(entries: Entries, fqn: string, loaded: seq<TypeData>): (Try<TypeInfo>, Entries)
  {
    if fqn in entries && entries[fqn].state.None? then (Failure(NullPointer), entries)
    else if fqn in entries && entries[fqn].state.value.isDone then (Success(entries[fqn].typeInfo), entries)
    else
      var found := Matching(fqn, loaded, None);
      (if found.Some? then Success(found.value) else Failure(AssertionFailed), StoredAll(entries, loaded))
  }

  /**
   * On entries keyed by name, a successful get returns a type of the queried
   * name that a later get(fqn) finds again, and the entries stay keyed by name;
   * the assertion fails exactly when the entry is not done and nothing loaded
   * carries the name.
   */
  lemma GetReturnsWhatItKeeps(entries: Entries, fqn: string, loaded: seq<TypeData>)
    requires KeyedByName(entries)
    ensures KeyedByName(GetSpec(entries, fqn, loaded).1)
    ensures GetSpec(entries, fqn, loaded).0.Success? ==>
      FullyQualifiedName(GetSpec(entries, fqn, loaded).0.value) == fqn &&
      LookupType(GetSpec(entries, fqn, loaded).1, fqn) == Some(GetSpec(entries, fqn, loaded).0.value)
    ensures GetSpec(entries, fqn, loaded).0 == Failure(AssertionFailed) <==>
      (fqn in entries ==> entries[fqn].state.Some? && !entries[fqn].state.value.isDone) &&
      forall k :: 0 <= k < |loaded| ==> Name(loaded[k]) != fqn
  {
    StoredAllKeyed(entries, loaded);
    MatchingIsLastNamed(fqn, loaded, None);
    StoredAllHolds(entries, loaded, fqn);
    LastNamedIsLast(loaded, fqn);
  }

  // ---------------------------------------------------------------------------
  // pathToFqn

  const DOT_CLASS := ".class"
  const ANONFUN := "$$anonfun"

  /** A trailing ".class" removed. */
  function StripDotClass(path: string): (r: string)
    ensures EndsWith(path, DOT_CLASS) ==> r + DOT_CLASS == path
    ensures !EndsWith(path, DOT_CLASS) ==> r == path
  {
    if EndsWith(path, DOT_CLASS) then path[..|path| - |DOT_CLASS|] else path
  }

  /**
   * pathToFqn: a Scala object's trailing '$' becomes ".object", a Scala
   * "$class" is converted as a whole, a Scala anonymous function is named
   * after the absolute hash of the path, and any other path has '/' and '$'
   * turned into '.'.
   */
  function PathToFqn(path: string, hash: string -> Int32): string
  {
    var s := StripDotClass(path);
    if EndsWith(s, "$") then FqnOfPath(s[..|s| - 1]) + ".object"
    else if EndsWith(s, "$class") then FqnOfPath(s)
    else
      var anon := IndexOfString(s, ANONFUN, 0);
      if anon > 0 then FqnOfPath(s[..anon]) + "." + IntToString(Abs32(hash(s)) as int)
      else FqnOfPath(s)
  }

  lemma FqnOfPathIsDotted(s: string)
    ensures |FqnOfPath(s)| == |s|
    ensures '/' !in FqnOfPath(s) && '$' !in FqnOfPath(s)
    ensures forall k :: 0 <= k < |s| ==> FqnOfPath(s)[k] == if s[k] == '/' || s[k] == '$' then '.' else s[k]
  {
    ReplaceCharsAt(s, {'/', '$'}, '.');
  }

  lemma IntToStringIsDotted(i: int)
    ensures '/' !in IntToString(i) && '$' !in IntToString(i)
  {
    var d := Digits(if i < 0 then -i else i);
    assert forall k :: 0 <= k < |d| ==> IsDigit(d[k]);
    assert '/' !in d && '$' !in d;
  }

  /** Whatever the path, the name holds no '/' and no '$'. */
  lemma PathToFqnIsDotted(path: string, hash: string -> Int32)
    ensures '/' !in PathToFqn(path, hash) && '$' !in PathToFqn(path, hash)
  {
    var s := StripDotClass(path);
    var r := PathToFqn(path, hash);
    if EndsWith(s, "$") {
      FqnOfPathIsDotted(s[..|s| - 1]);
      assert r == FqnOfPath(s[..|s| - 1]) + ".object";
    } else if EndsWith(s, "$class") {
      FqnOfPathIsDotted(s);
    } else {
      var anon := IndexOfString(s, ANONFUN, 0);
      if anon > 0 {
        var digits := IntToString(Abs32(hash(s)) as int);
        FqnOfPathIsDotted(s[..anon]);
        IntToStringIsDotted(Abs32(hash(s)) as int);
        assert r == FqnOfPath(s[..anon]) + "." + digits;
      } else {
        FqnOfPathIsDotted(s);
      }
    }
  }

  /** A Scala object: the name ends in ".object" in place of the '$'. */
  lemma ScalaObjectName(path: string, hash: string -> Int32)
    requires EndsWith(StripDotClass(path), "$")
    ensures var s := StripDotClass(path);
      var r := PathToFqn(path, hash);
      EndsWith(r, ".object") && |r| == |s| + 6
  {
    FqnOfPathIsDotted(StripDotClass(path)[..|StripDotClass(path)| - 1]);
  }

  /** A Scala "$class": the name keeps the length and ends in ".class". */
  lemma ScalaClassName(path: string, hash: string -> Int32)
    requires !EndsWith(StripDotClass(path), "$") && EndsWith(StripDotClass(path), "$class")
    ensures var s := StripDotClass(path);
      var r := PathToFqn(path, hash);
      EndsWith(r, ".class") && |r| == |s|
  {
    var s := StripDotClass(path);
    FqnOfPathIsDotted(s);
    var r := FqnOfPath(s);
    assert forall k :: |s| - 6 <= k < |s| ==> r[k] == (if s[k] == '$' then '.' else s[k]);
    assert r[|r| - 6..] == ".class";
  }

  /**
   * A Scala anonymous function: the converted prefix before "$$anonfun", a
   * dot, and the absolute hash, which parses back and is free of a minus sign
   * unless the hash is the most negative int.
   */
  lemma AnonymousFunctionName(path: string, hash: string -> Int32)
    requires var s := StripDotClass(path);
      !EndsWith(s, "$") && !EndsWith(s, "$class") && IndexOfString(s, ANONFUN, 0) > 0
    ensures var s := StripDotClass(path);
      var anon := IndexOfString(s, ANONFUN, 0);
      var r := PathToFqn(path, hash);
      anon < |r| && r[..anon] == FqnOfPath(s[..anon]) && r[anon] == '.' &&
      ParseInt(r[anon + 1..]) == Some(Abs32(hash(s)) as int) &&
      (hash(s) != -0x8000_0000 ==> forall k :: anon < k < |r| ==> IsDigit(r[k]))
  {
    var s := StripDotClass(path);
    var anon := IndexOfString(s, ANONFUN, 0);
    var prefix := FqnOfPath(s[..anon]);
    var digits := IntToString(Abs32(hash(s)) as int);
    var r := prefix + "." + digits;
    assert |prefix| == anon;
    assert r[..anon] == prefix && r[anon + 1..] == digits;
    ParseIntToString(Abs32(hash(s)) as int);
  }

  /** Any other path: every '/' and '$' becomes '.', and nothing else changes. */
  lemma OrdinaryName(path: string, hash: string -> Int32)
    requires var s := StripDotClass(path);
      !EndsWith(s, "$") && !EndsWith(s, "$class") && IndexOfString(s, ANONFUN, 0) <= 0
    ensures var s := StripDotClass(path);
      var r := PathToFqn(path, hash);
      |r| == |s| && forall k :: 0 <= k < |s| ==> r[k] == if s[k] == '/' || s[k] == '$' then '.' else s[k]
  {
    FqnOfPathIsDotted(StripDotClass(path));
  }

  // ---------------------------------------------------------------------------
  // fqnToPath and pathToFqn agree

  /** A name whose dot-separated segments are non-empty and free of '/' and '$'. */
  predicate PlainName(fqn: string)
  {
    '/' !in fqn && '$' !in fqn && forall k :: 0 <= k < |Pieces(fqn, '.')| ==> Pieces(fqn, '.')[k] != ""
  }

  predicate NoDoubleDollar(s: string)
  {
    forall k :: 0 <= k < |s| - 1 ==> !(s[k] == '$' && s[k + 1] == '$')
  }

  /** Non-empty parts without '$' joined by '$' never hold two '$' in a row, nor start or end with one. */
  lemma {:induction false} DollarJoin(ps: seq<string>)
    requires |ps| >= 1
    requires forall k :: 0 <= k < |ps| ==> ps[k] != "" && '$' !in ps[k]
    ensures var j := Join(ps, "$");
      |j| > 0 && j[0] != '$' && j[|j| - 1] != '$' && NoDoubleDollar(j)
    decreases |ps|
  {
    if |ps| > 1 {
      var init, p := ps[..|ps| - 1], ps[|ps| - 1];
      DollarJoin(init);
      var a := Join(init, "$");
      var j := a + "$" + p;
      assert Join(ps, "$") == j;
      assert j[0] == a[0];
      forall k | 0 <= k < |j| - 1
        ensures !(j[k] == '$' && j[k + 1] == '$')
      {
        if k + 1 < |a| {
          assert j[k] == a[k] && j[k + 1] == a[k + 1];
        } else if k + 1 == |a| {
          assert j[k] == a[k];
        } else if k == |a| {
          assert j[k + 1] == p[0];
        } else {
          assert j[k] == p[k - |a| - 1];
        }
      }
    }
  }

  /** The class-file path of candidate `i`, with ".class" stripped. */
  lemma CandidatePathLayout(segs: seq<string>, i: nat)
    requires 1 <= i < |segs|
    ensures StripDotClass(Join(Candidate(segs, i, DOT_CLASS), "/")) == Join(segs[..i], "/") + "/" + Join(segs[i..], "$")
  {
    var c := Candidate(segs, i, DOT_CLASS);
    var j := Join(segs[i..], "$");
    assert c[..|c| - 1] == segs[..i];
    assert Join(c, "/") == Join(segs[..i], "/") + "/" + (j + DOT_CLASS);
    assert Join(c, "/") == (Join(segs[..i], "/") + "/" + j) + DOT_CLASS;
  }

  /** The stripped path of a candidate never holds two '$' in a row. */
  lemma CandidateNoDoubleDollar(segs: seq<string>, i: nat)
    requires 1 <= i < |segs|
    requires forall k :: 0 <= k < |segs| ==> segs[k] != "" && '/' !in segs[k] && '$' !in segs[k]
    ensures var s := Join(segs[..i], "/") + "/" + Join(segs[i..], "$");
      NoDoubleDollar(s) && s[|s| - 1] != '$'
  {
    var d, j := Join(segs[..i], "/"), Join(segs[i..], "$");
    var s := d + "/" + j;
    DollarJoin(segs[i..]);
    JoinAvoids(segs[..i], "/", '$');
    assert s[|s| - 1] == j[|j| - 1];
    forall k | 0 <= k < |s| - 1
      ensures !(s[k] == '$' && s[k + 1] == '$')
    {
      if k < |d| {
        assert s[k] == d[k];
      } else if k > |d| {
        assert s[k] == j[k - |d| - 1] && s[k + 1] == j[k - |d|];
      }
    }
  }

  lemma AnonymousFunctionStartsWithDollars(s: string, k: nat)
    requires OccursAt(s, ANONFUN, k)
    ensures s[k] == '$' && s[k + 1] == '$'
  {
    var w := s[k..k + |ANONFUN|];
    assert w[0] == s[k] && w[1] == s[k + 1];
  }

  /** Without two '$' in a row there is no "$$anonfun". */
  lemma NoAnonymousFunction(s: string)
    requires NoDoubleDollar(s)
    ensures IndexOfString(s, ANONFUN, 0) == -1
  {
    var anon := IndexOfString(s, ANONFUN, 0);
    if anon >= 0 {
      AnonymousFunctionStartsWithDollars(s, anon);
      assert false;
    }
  }

  lemma FqnOfPathAround(a: string, b: string)
    ensures FqnOfPath(a + "/" + b) == FqnOfPath(a) + "." + FqnOfPath(b)
  {
    ReplaceCharsAppend(a + "/", b, {'/', '$'}, '.');
    ReplaceCharsAppend(a, "/", {'/', '$'}, '.');
    ReplaceCharsAt("/", {'/', '$'}, '.');
  }

  /** The stripped path of a candidate converts to the segments joined by dots. */
  lemma CandidateDots(segs: seq<string>, i: nat)
    requires 1 <= i < |segs|
    requires forall k :: 0 <= k < |segs| ==> '/' !in segs[k] && '$' !in segs[k]
    ensures FqnOfPath(Join(segs[..i], "/") + "/" + Join(segs[i..], "$")) == Join(segs, ".")
  {
    FqnOfPathAround(Join(segs[..i], "/"), Join(segs[i..], "$"));
    FqnOfPathJoin(segs[..i], '/');
    FqnOfPathJoin(segs[i..], '$');
    JoinAppend(segs[..i], segs[i..], ".");
    assert segs[..i] + segs[i..] == segs;
  }

  /** Reading the path of any candidate back gives the segments joined by dots. */
  lemma CandidateReadsBack(segs: seq<string>, i: nat, hash: string -> Int32)
    requires 1 <= i < |segs|
    requires forall k :: 0 <= k < |segs| ==> segs[k] != "" && '/' !in segs[k] && '$' !in segs[k]
    ensures PathToFqn(Join(Candidate(segs, i, DOT_CLASS), "/"), hash) == Join(segs, ".")
  {
    var s := Join(segs[..i], "/") + "/" + Join(segs[i..], "$");
    CandidatePathLayout(segs, i);
    CandidateNoDoubleDollar(segs, i);
    NoAnonymousFunction(s);
    CandidateDots(segs, i);
  }

  /**
   * The path fqnToPath finds for a plain name reads back, through pathToFqn,
   * as that very name.
   */
  lemma FoundPathReadsBack(data: Trie, fqn: string, hash: string -> Int32)
    requires PlainName(fqn)
    requires FqnToPathSpec(data, fqn, DOT_CLASS).Some?
    ensures PathToFqn(FqnToPathSpec(data, fqn, DOT_CLASS).value.path, hash) == fqn
  {
    var segs := Split(fqn, '.');
    var pieces := Pieces(fqn, '.');
    SplitPieces(fqn, '.');
    assert segs == pieces;
    forall k | 0 <= k < |segs|
      ensures '/' !in segs[k] && '$' !in segs[k]
    {
      if '/' in segs[k] { PiecesWithin(fqn, '.', k, '/'); }
      if '$' in segs[k] { PiecesWithin(fqn, '.', k, '$'); }
    }
    FirstHitIsFirst(data, segs, DOT_CLASS, 1);
    var j :| FirstPresent(data, segs, DOT_CLASS, 1, j) && FirstHit(data, segs, DOT_CLASS, 1) == Some(FileAt(data, segs, DOT_CLASS, j));
    CandidateReadsBack(segs, j, hash);
    PiecesJoin(fqn, '.');
  }

  // ---------------------------------------------------------------------------
  // the type map object

  class TypeMap {
    var queue: seq<string>
    var entries: Entries
    const classPath: Resources

    ghost predicate Valid()
      reads this
    {
      KeyedByName(entries)
    }

    constructor(classPath: Resources)
      ensures Valid() && queue == [] && entries == map[] && this.classPath == classPath
    {
      this.classPath := classPath;
      queue := [];
      entries := map[];
    }

    /** add: the type is stored under its name with the given state. */
    method Add(typeInfo: TypeInfo, inspectionState: InspectionState)
      requires Valid()
      modifies this
      ensures Valid()
      ensures entries == old(entries)[FullyQualifiedName(typeInfo) := InspectionAndState(typeInfo, Some(inspectionState))]
      ensures queue == old(queue)
      ensures Get(FullyQualifiedName(typeInfo)) == Some(typeInfo)
    {
      entries := entries[FullyQualifiedName(typeInfo) := InspectionAndState(typeInfo, Some(inspectionState))];
    }

    /** addToByteCodeQueue: the name goes at the end of the queue, duplicates kept. */
    method AddToByteCodeQueue(fqn: string)
      modifies this
      ensures queue == old(queue) + [fqn]
      ensures entries == old(entries)
    {
      queue := queue + [fqn];
    }

    /** addToTrie: the type is stored under its name with the null state, and returned. */
    method AddToTrie(subType: TypeInfo) returns (r: TypeInfo)
      requires Valid()
      modifies this
      ensures Valid()
      ensures r == subType
      ensures entries == old(entries)[FullyQualifiedName(subType) := InspectionAndState(subType, None)]
      ensures queue == old(queue)
      ensures Get(FullyQualifiedName(subType)) == Some(subType)
      ensures TypeInspectionSituation(FullyQualifiedName(subType)) == Some(InspectionAndState(subType, None))
    {
      entries := entries[FullyQualifiedName(subType) := InspectionAndState(subType, None)];
      r := subType;
    }

    /** get(fqn): the type stored under the name, or nothing. */
    function Get(fqn: string): (r: Option<TypeInfo>)
      reads this
      ensures Valid() && r.Some? ==> FullyQualifiedName(r.value) == fqn
    {
      LookupType(entries, fqn)
    }

    /** typeInspectionSituation: the entry stored under the name, or nothing. */
    function TypeInspectionSituation(fqn: string): (r: Option<InspectionAndState>)
      reads this
      ensures r.Some? <==> Get(fqn).Some?
      ensures r.Some? ==> Get(fqn) == Some(r.value.typeInfo)
    {
      if fqn in entries then Some(entries[fqn]) else None
    }

    /** isPackagePrefix: this map knows no packages. */
    function IsPackagePrefix(packagePrefix: seq<string>): (r: bool)
      ensures !r
    {
      false
    }

    /**
     * get(fqn, complain): a done entry is returned as it is; otherwise the
     * class file found for the name is inspected, every type read from it is
     * stored under its own name, and the one named `fqn` is returned. The
     * inspector is the function from the class file (or its absence) to the
     * types read from it.
     */
    method GetOrLoad(fqn: string, complain: bool, inspect: Option<SourceFile> -> seq<TypeData>) returns (r: Try<TypeInfo>)
      requires Valid()
      modifies this
      ensures Valid()
      ensures queue == old(queue)
      ensures (r, entries) == GetSpec(old(entries), fqn, inspect(FqnToPathSpec(classPath.data, fqn, DOT_CLASS)))
      ensures r.Success? ==> FullyQualifiedName(r.value) == fqn && Get(fqn) == Some(r.value)
    {
      if fqn in entries {
        var ias := entries[fqn];
        if ias.state.None? {
          return Failure(NullPointer);
        }
        if ias.state.value.isDone {
          return Success(ias.typeInfo);
        }
      }
      var sourceFile := classPath.FqnToPath(fqn, DOT_CLASS);
      var typeDataList := inspect(sourceFile);
      var typeInfo: Option<TypeInfo> := None;
      var stored := entries;
      var k := 0;
      while k < |typeDataList|
        invariant k <= |typeDataList|
        invariant Matching(fqn, typeDataList[k..], typeInfo) == Matching(fqn, typeDataList, None)
        invariant StoredAll(stored, typeDataList[k..]) == StoredAll(entries, typeDataList)
      {
        var typeData := typeDataList[k];
        assert typeDataList[k..][0] == typeData && typeDataList[k..][1..] == typeDataList[k + 1..];
        var ti := typeData.typeInfo;
        if FullyQualifiedName(ti) == fqn {
          typeInfo := Some(ti);
        }
        stored := stored[FullyQualifiedName(ti) := ToInspectionAndState(typeData)];
        k := k + 1;
      }
      GetReturnsWhatItKeeps(entries, fqn, typeDataList);
      entries := stored;
      if typeInfo.None? {
        return Failure(AssertionFailed);
      }
      return Success(typeInfo.value);
    }

    /** getQueue: the names waiting to be loaded, in the order they were added. */
    function GetQueue(): seq<string>
      reads this
    {
      queue
    }
  }
}
