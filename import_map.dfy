/**
 * The imports of one compilation unit (ImportMapImpl): static wildcard
 * imports, static member imports, imported types by fully qualified and by
 * simple name, and the wildcard imports whose subtypes become visible.
 */
module ImportMap {
  import opened JavaLang
  import opened ParserTypes

  /**
   * `isImported` on a type map: a direct hit, or else the subtype named by the
   * last segment of the imported type named by the part before the last dot.
   */
  function IsImportedIn(typeMap: map<string, TypeInfo>, fqn: string): (r: Option<TypeInfo>)
    decreases |fqn|
  {
    if fqn in typeMap then Some(typeMap[fqn])
    else
      var dot := LastIndexOf(fqn, '.');
      if dot > 0 then
        match IsImportedIn(typeMap, fqn[..dot])
        case None => None
        case Some(outer) => FirstSubtypeNamed(outer.subTypes, fqn[dot + 1..])
      else None
  }

  /** The last dot of `outer.simple`, when `simple` has none, is the one between them. */
  lemma LastDot(outer: string, simple: string)
    requires '.' !in simple
    ensures var fqn := outer + "." + simple;
      LastIndexOf(fqn, '.') == |outer| && fqn[..|outer|] == outer && fqn[|outer| + 1..] == simple
  {
    var fqn := outer + "." + simple;
    var r := LastIndexOf(fqn, '.');
    LastIndexOfLast(fqn, '.');
    assert fqn[|outer|] == '.';
    assert fqn[..|outer|] == outer;
    assert fqn[|outer| + 1..] == simple;
  }

  /** A directly registered name resolves to its type. */
  lemma ImportedDirectly(typeMap: map<string, TypeInfo>, fqn: string)
    requires fqn in typeMap
    ensures IsImportedIn(typeMap, fqn) == Some(typeMap[fqn])
  {
  }

  /**
   * An unregistered `outer.simple` resolves through `outer`: to the first
   * subtype of that type whose simple name is `simple`.
   */
  lemma ImportedThroughOuter(typeMap: map<string, TypeInfo>, outer: string, simple: string)
    requires outer != "" && '.' !in simple && outer + "." + simple !in typeMap
    ensures IsImportedIn(typeMap, outer + "." + simple) ==
      match IsImportedIn(typeMap, outer)
      case None => None
      case Some(o) => FirstSubtypeNamed(o.subTypes, simple)
  {
    LastDot(outer, simple);
  }

  /** A name without a dot (or with a leading dot only) is found only when registered itself. */
  lemma NotImportedWithoutDot(typeMap: map<string, TypeInfo>, fqn: string)
    requires fqn !in typeMap && forall k :: 0 < k < |fqn| ==> fqn[k] != '.'
    ensures IsImportedIn(typeMap, fqn) == None
  {
  }

  /** What is found is the registered type, or a type whose simple name is the last segment. */
  lemma ImportedSound(typeMap: map<string, TypeInfo>, fqn: string)
    requires IsImportedIn(typeMap, fqn).Some?
    ensures var t := IsImportedIn(typeMap, fqn).value;
      (fqn in typeMap && t == typeMap[fqn]) ||
      (fqn !in typeMap && t.simpleName == fqn[LastIndexOf(fqn, '.') + 1..])
  {
  }

  class ImportMap {
    var staticAsterisk: seq<TypeInfo>
    var staticMemberToTypeInfo: map<string, TypeInfo>
    var typeMap: map<string, TypeInfo>
    var simpleNameTypeMap: map<string, TypeInfo>
    var subtypeAsterisk: set<TypeInfo>

    constructor ()
      ensures staticAsterisk == [] && staticMemberToTypeInfo == map[] && typeMap == map[]
      ensures simpleNameTypeMap == map[] && subtypeAsterisk == {}
    {
      staticAsterisk := [];
      staticMemberToTypeInfo := map[];
      typeMap := map[];
      simpleNameTypeMap := map[];
      subtypeAsterisk := {};
    }

    /** A static wildcard import also makes the type's subtypes visible. */
    method AddStaticAsterisk(typeInfo: TypeInfo)
      modifies this`staticAsterisk, this`subtypeAsterisk
      ensures staticAsterisk == if typeInfo in old(staticAsterisk) then old(staticAsterisk) else old(staticAsterisk) + [typeInfo]
      ensures subtypeAsterisk == old(subtypeAsterisk) + {typeInfo}
      ensures IsSubtypeAsterisk(typeInfo)
    {
      if typeInfo !in staticAsterisk {
        staticAsterisk := staticAsterisk + [typeInfo];
      }
      subtypeAsterisk := subtypeAsterisk + {typeInfo};
    }

    method PutStaticMemberToTypeInfo(member: string, typeInfo: TypeInfo)
      modifies this`staticMemberToTypeInfo
      ensures staticMemberToTypeInfo == old(staticMemberToTypeInfo)[member := typeInfo]
      ensures GetStaticMemberToTypeInfo(member) == Some(typeInfo)
    {
      staticMemberToTypeInfo := staticMemberToTypeInfo[member := typeInfo];
    }

    function GetStaticMemberToTypeInfo(methodName: string): (r: Option<TypeInfo>)
      reads this`staticMemberToTypeInfo
      ensures r.Some? <==> methodName in staticMemberToTypeInfo
      ensures r.Some? ==> r.value == staticMemberToTypeInfo[methodName]
    {
      if methodName in staticMemberToTypeInfo then Some(staticMemberToTypeInfo[methodName]) else None
    }

    /**
     * A high-priority registration overwrites; otherwise only an absent name
     * is registered. A direct import also registers the simple name.
     */
    method PutTypeMap(fullyQualifiedName: string, typeInfo: TypeInfo, highPriority: bool, isDirectImport: bool)
      modifies this`typeMap, this`simpleNameTypeMap
      ensures typeMap == if highPriority || fullyQualifiedName !in old(typeMap)
        then old(typeMap)[fullyQualifiedName := typeInfo] else old(typeMap)
      ensures simpleNameTypeMap == if isDirectImport
        then old(simpleNameTypeMap)[typeInfo.simpleName := typeInfo] else old(simpleNameTypeMap)
      ensures isDirectImport ==> GetSimpleName(typeInfo.simpleName) == Some(typeInfo)
    {
      if highPriority || fullyQualifiedName !in typeMap {
        typeMap := typeMap[fullyQualifiedName := typeInfo];
      }
      if isDirectImport {
        simpleNameTypeMap := simpleNameTypeMap[typeInfo.simpleName := typeInfo];
      }
    }

    function IsImported(fullyQualifiedName: string): Option<TypeInfo>
      reads this`typeMap
    {
      IsImportedIn(typeMap, fullyQualifiedName)
    }

    method AddToSubtypeAsterisk(typeInfo: TypeInfo)
      modifies this`subtypeAsterisk
      ensures subtypeAsterisk == old(subtypeAsterisk) + {typeInfo}
      ensures IsSubtypeAsterisk(typeInfo)
    {
      subtypeAsterisk := subtypeAsterisk + {typeInfo};
    }

    predicate IsSubtypeAsterisk(typeInfo: TypeInfo)
      reads this`subtypeAsterisk
    {
      typeInfo in subtypeAsterisk
    }

    /** A copy of the wildcard set: a value, unaffected by later changes to this map. */
    method ImportAsterisk() returns (r: set<TypeInfo>)
      ensures r == subtypeAsterisk
    {
      r := subtypeAsterisk;
    }

    function GetSimpleName(name: string): (r: Option<TypeInfo>)
      reads this`simpleNameTypeMap
      ensures r.Some? <==> name in simpleNameTypeMap
      ensures r.Some? ==> r.value == simpleNameTypeMap[name]
    {
      if name in simpleNameTypeMap then Some(simpleNameTypeMap[name]) else None
    }
  }

  /** A nested type is imported through its imported outer type. */
  lemma NestedImportExample()
    ensures var d := TypeInfo("a.b.C.D", "D", []);
      var c := TypeInfo("a.b.C", "C", [d]);
      IsImportedIn(map["a.b.C" := c], "a.b.C.D") == Some(d) &&
      IsImportedIn(map["a.b.C" := c], "a.b.C.E") == None
  {
    var d := TypeInfo("a.b.C.D", "D", []);
    var c := TypeInfo("a.b.C", "C", [d]);
    var tm := map["a.b.C" := c];
    assert "a.b.C" + "." + "D" == "a.b.C.D";
    assert "a.b.C" + "." + "E" == "a.b.C.E";
    ImportedThroughOuter(tm, "a.b.C", "D");
    ImportedThroughOuter(tm, "a.b.C", "E");
    assert FirstSubtypeNamed([d], "E") == None;
  }
}
