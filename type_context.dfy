/**
 * The types visible at a point of a compilation unit (TypeContextImpl): a
 * context map of named types (types and type parameters) by simple or
 * alternative name, the compilation unit's import map, shared by all nested
 * contexts, and the type map of everything loaded so far.
 */
module TypeContext {
  import opened JavaLang
  import opened ParserTypes
  import opened ImportMap

  datatype TypeParameter = TypeParameter(simpleName: string, index: nat)
  datatype NamedType = Type(typeInfo: TypeInfo) | Variable(typeParameter: TypeParameter)

  function SimpleName(namedType: NamedType): string
  {
    match namedType
    case Type(t) => t.simpleName
    case Variable(tp) => tp.simpleName
  }

  /**
   * The type map as this class uses it: the types already known by fully
   * qualified name, and `getOrCreate`, which loads or creates the others.
   */
  datatype TypeMapBuilder = TypeMapBuilder(known: map<string, TypeInfo>, getOrCreate: (string, bool) -> Try<Option<TypeInfo>>)

  function AsNamed(t: Try<Option<TypeInfo>>): (r: Try<Option<NamedType>>)
    ensures t.Failure? ==> r == Failure(t.exception)
    ensures t == Success(None) ==> r == Success(None)
    ensures t.Success? && t.value.Some? ==> r == Success(Some(Type(t.value.value)))
  {
    match t
    case Failure(e) => Failure(e)
    case Success(None) => Success(None)
    case Success(Some(ti)) => Success(Some(Type(ti)))
  }

  /** `putTypeMap(fqn, t, false, false)`: registered only when the name is still free. */
  function Cached(typeMap: map<string, TypeInfo>, t: TypeInfo): (r: map<string, TypeInfo>)
    ensures t.fullyQualifiedName in r && r.Keys == typeMap.Keys + {t.fullyQualifiedName}
    ensures forall n :: n in typeMap ==> r[n] == typeMap[n]
  {
    if t.fullyQualifiedName in typeMap then typeMap else typeMap[t.fullyQualifiedName := t]
  }

  /** Some type imported with a wildcard has `st` as its first nested type called `name`. */
  ghost predicate WildcardSubtype(wildcards: set<TypeInfo>, name: string, st: TypeInfo)
  {
    exists w :: w in wildcards && FirstSubtypeNamed(w.subTypes, name) == Some(st)
  }

  predicate NoWildcardSubtype(wildcards: set<TypeInfo>, name: string)
  {
    forall w :: w in wildcards ==> FirstSubtypeNamed(w.subTypes, name).None?
  }

  /** The wildcard loop of `getSimpleName`, over a copy of the set in no particular order. */
  method FindInWildcards(wildcards: set<TypeInfo>, name: string) returns (r: Option<TypeInfo>)
    ensures r.Some? ==> WildcardSubtype(wildcards, name, r.value) && r.value.simpleName == name
    ensures r.None? <==> NoWildcardSubtype(wildcards, name)
  {
    var todo := wildcards;
    ghost var done: set<TypeInfo> := {};
    while todo != {}
      invariant todo <= wildcards && done == wildcards - todo
      invariant NoWildcardSubtype(done, name)
      decreases |todo|
    {
      var wildcard :| wildcard in todo;
      var subType := FirstSubtypeNamed(wildcard.subTypes, name);
      if subType.Some? {
        return subType;
      }
      todo := todo - {wildcard};
      done := done + {wildcard};
    }
    return None;
  }

  /** The name of the prefix of a dotted name, up to its last dot. */
  function Prefix(name: string): string
    requires '.' in name
  {
    LastIndexOfLast(name, '.');
    name[..LastIndexOf(name, '.')]
  }

  /** The last segment of a dotted name. */
  function LastSegment(name: string): string
    requires '.' in name
  {
    LastIndexOfLast(name, '.');
    name[LastIndexOf(name, '.') + 1..]
  }

  class TypeContext {
    const parentContext: TypeContext?
    /** The nesting depth; a parent is always shallower. */
    ghost const depth: nat
    const typeMap: TypeMapBuilder
    /** The package of the compilation unit. */
    const packageName: string
    const importMap: ImportMap
    var contextMap: map<string, NamedType>

    /** This context and its enclosing ones. */
    ghost function Chain(): (r: set<TypeContext>)
      ensures this in r
      ensures forall c :: c in r ==> c.depth <= depth
      decreases depth
    {
      if parentContext != null && parentContext.depth < depth then {this} + parentContext.Chain() else {this}
    }

    /** Every context of the chain is allocated, so a call that modifies only the import map leaves them alone. */
    lemma ChainAllocated()
      ensures forall c :: c in Chain() ==> allocated(c)
      decreases depth
    {
      if parentContext != null && parentContext.depth < depth {
        parentContext.ChainAllocated();
      }
    }

    /** Nested contexts share the import map of the outermost one. */
    ghost predicate Valid()
      decreases depth
    {
      parentContext != null ==>
        parentContext.depth < depth && parentContext.importMap == importMap && parentContext.Valid()
    }

    constructor (typeMap: TypeMapBuilder, packageName: string, importMap: ImportMap)
      ensures parentContext == null && depth == 0 && Valid() && contextMap == map[]
      ensures this.typeMap == typeMap && this.packageName == packageName && this.importMap == importMap
    {
      parentContext := null;
      depth := 0;
      this.typeMap := typeMap;
      this.packageName := packageName;
      this.importMap := importMap;
      contextMap := map[];
    }

    constructor Nested(parent: TypeContext)
      requires parent.Valid()
      ensures parentContext == parent && depth == parent.depth + 1 && Valid() && contextMap == map[]
      ensures typeMap == parent.typeMap && packageName == parent.packageName && importMap == parent.importMap
    {
      parentContext := parent;
      depth := parent.depth + 1;
      typeMap := parent.typeMap;
      packageName := parent.packageName;
      importMap := parent.importMap;
      contextMap := map[];
    }

    /**
     * The part of the simple-name lookup that only reads: this context's map,
     * the simple names of direct imports, then the enclosing contexts.
     */
    ghost function Visible(name: string): Option<NamedType>
      requires Valid()
      reads Chain(), importMap`simpleNameTypeMap
      decreases depth
    {
      if name in contextMap then Some(contextMap[name])
      else if name in importMap.simpleNameTypeMap then Some(Type(importMap.simpleNameTypeMap[name]))
      else if parentContext != null then parentContext.Visible(name)
      else None
    }

    /** The nested type of that name in the type a static import of `name` came from. */
    function StaticSubtype(name: string): (r: Option<TypeInfo>)
      reads importMap`staticMemberToTypeInfo
      ensures r.Some? ==> name in importMap.staticMemberToTypeInfo && r.value in importMap.staticMemberToTypeInfo[name].subTypes
      ensures r.Some? ==> r.value.simpleName == name
    {
      match importMap.GetStaticMemberToTypeInfo(name)
      case None => None
      case Some(parent) => FirstSubtypeNamed(parent.subTypes, name)
    }

    /** No stage of the simple-name lookup finds the name. */
    ghost predicate NoSimpleName(name: string)
      requires Valid()
      reads Chain(), importMap
    {
      Visible(name).None? && StaticSubtype(name).None? && NoWildcardSubtype(importMap.subtypeAsterisk, name)
    }

    /** A type known to the type map, else one reachable through an import, else `getOrCreate`. */
    function GetFullyQualified(fullyQualifiedName: string, complain: bool): Try<Option<TypeInfo>>
      reads importMap`typeMap
    {
      if fullyQualifiedName in typeMap.known then Success(Some(typeMap.known[fullyQualifiedName]))
      else
        match importMap.IsImported(fullyQualifiedName)
        case Some(imported) => Success(Some(imported))
        case None => typeMap.getOrCreate(fullyQualifiedName, complain)
    }

    /**
     * A nested type not in the type map is found through the import of its
     * outer type, without asking `getOrCreate`.
     */
    lemma FullyQualifiedThroughImport(outer: string, simple: string, complain: bool)
      requires outer != "" && '.' !in simple
      requires outer + "." + simple !in typeMap.known && outer + "." + simple !in importMap.typeMap
      requires IsImportedIn(importMap.typeMap, outer).Some?
      requires FirstSubtypeNamed(IsImportedIn(importMap.typeMap, outer).value.subTypes, simple).Some?
      ensures GetFullyQualified(outer + "." + simple, complain) ==
              Success(FirstSubtypeNamed(IsImportedIn(importMap.typeMap, outer).value.subTypes, simple))
    {
      ImportedThroughOuter(importMap.typeMap, outer, simple);
    }

    /**
     * The context map first, then simple names of direct imports, then the
     * enclosing contexts; then, on demand, a nested type of a statically
     * imported type, or of a wildcard-imported one. A type found on demand is
     * cached in the import map.
     */
    method GetSimpleName(name: string) returns (r: Option<NamedType>)
      requires Valid()
      modifies importMap`typeMap, importMap`simpleNameTypeMap
      ensures importMap.simpleNameTypeMap == old(importMap.simpleNameTypeMap)
      ensures old(Visible(name)).Some? ==> r == old(Visible(name)) && importMap.typeMap == old(importMap.typeMap)
      ensures old(Visible(name)).None? && StaticSubtype(name).Some? ==>
        r == Some(Type(StaticSubtype(name).value)) &&
        importMap.typeMap == Cached(old(importMap.typeMap), StaticSubtype(name).value)
      ensures old(Visible(name)).None? && StaticSubtype(name).None? ==>
        (r.None? <==> NoWildcardSubtype(importMap.subtypeAsterisk, name)) &&
        (r.None? ==> importMap.typeMap == old(importMap.typeMap)) &&
        (r.Some? ==> r.value.Type? && WildcardSubtype(importMap.subtypeAsterisk, name, r.value.typeInfo) &&
                     importMap.typeMap == Cached(old(importMap.typeMap), r.value.typeInfo))
      ensures r.None? <==> old(NoSimpleName(name))
      ensures r.None? ==> importMap.typeMap == old(importMap.typeMap)
      decreases depth
    {
      if name in contextMap {
        return Some(contextMap[name]);
      }
      var fromImport := importMap.GetSimpleName(name);
      if fromImport.Some? {
        return Some(Type(fromImport.value));
      }
      if parentContext != null {
        var fromParent := parentContext.GetSimpleName(name);
        if fromParent.Some? {
          return fromParent;
        }
      }
      var parent := importMap.GetStaticMemberToTypeInfo(name);
      if parent.Some? {
        var subType := FirstSubtypeNamed(parent.value.subTypes, name);
        if subType.Some? {
          importMap.PutTypeMap(subType.value.fullyQualifiedName, subType.value, false, false);
          return Some(Type(subType.value));
        }
      }
      var wildcards := importMap.ImportAsterisk();
      var subType := FindInWildcards(wildcards, name);
      if subType.Some? {
        importMap.PutTypeMap(subType.value.fullyQualifiedName, subType.value, false, false);
        return Some(Type(subType.value));
      }
      return None;
    }

    /** An undotted name not found by simple name: `java.lang.<name>`, then `<package>.<name>`. */
    function Unqualified(name: string, complain: bool): (r: Try<Option<NamedType>>)
      reads importMap`typeMap
      ensures "java.lang." + name in typeMap.known ==> r == Success(Some(Type(typeMap.known["java.lang." + name])))
      ensures "java.lang." + name !in typeMap.known ==> r == AsNamed(GetFullyQualified(packageName + "." + name, complain))
    {
      if "java.lang." + name in typeMap.known then Success(Some(Type(typeMap.known["java.lang." + name])))
      else AsNamed(GetFullyQualified(packageName + "." + name, complain))
    }

    /**
     * What the dotted case makes of its prefix's lookup `prefixType`: a type
     * gives its fully qualified name with the last segment appended; anything
     * else that does not fail, a type variable or nothing, throws "?".
     */
    function ThroughPrefix(prefixType: Try<Option<NamedType>>, last: string, complain: bool): (r: Try<Option<NamedType>>)
      reads importMap`typeMap
      ensures prefixType.Failure? ==> r == Failure(prefixType.exception)
      ensures prefixType == Success(None) ==> r == Failure(UnsupportedOperation("?"))
      ensures prefixType.Success? && prefixType.value.Some? && prefixType.value.value.Variable? ==> r == Failure(UnsupportedOperation("?"))
      ensures prefixType.Success? && prefixType.value.Some? && prefixType.value.value.Type? ==>
        r == AsNamed(GetFullyQualified(prefixType.value.value.typeInfo.fullyQualifiedName + "." + last, complain))
    {
      match prefixType
      case Failure(e) => Failure(e)
      case Success(Some(Type(t))) => AsNamed(GetFullyQualified(t.fullyQualifiedName + "." + last, complain))
      case Success(_) => Failure(UnsupportedOperation("?"))
    }

    /**
     * The dotted case when the read-only lookup does not see the prefix: an
     * undotted prefix found by no stage of the simple-name lookup goes through
     * java.lang and the package (and throws "?" when neither has it); a prefix
     * found on demand through a static or a wildcard import is that nested
     * type, looked up in the type map as it is once the type is cached.
     */
    ghost predicate PrefixOnDemand(name: string, complain: bool, r: Try<Option<NamedType>>, before: map<string, TypeInfo>)
      requires Valid() && '.' in name
      reads Chain(), importMap
    {
      ('.' !in Prefix(name) && NoSimpleName(Prefix(name)) ==>
         importMap.typeMap == before && r == ThroughPrefix(Unqualified(Prefix(name), complain), LastSegment(name), complain)) &&
      (StaticSubtype(Prefix(name)).Some? ==>
         r == AsNamed(GetFullyQualified(StaticSubtype(Prefix(name)).value.fullyQualifiedName + "." + LastSegment(name), complain))) &&
      (StaticSubtype(Prefix(name)).None? && !NoWildcardSubtype(importMap.subtypeAsterisk, Prefix(name)) ==>
         exists t :: WildcardSubtype(importMap.subtypeAsterisk, Prefix(name), t) &&
           r == AsNamed(GetFullyQualified(t.fullyQualifiedName + "." + LastSegment(name), complain)))
    }

    /**
     * A simple name first; else a dotted name as fully qualified, and failing
     * that its prefix resolved and the last segment appended (a prefix that is
     * not a type is an error); else `java.lang.<name>`, then `<package>.<name>`.
     */
    method Get(name: string, complain: bool) returns (r: Try<Option<NamedType>>)
      requires Valid()
      modifies importMap`typeMap, importMap`simpleNameTypeMap
      ensures importMap.simpleNameTypeMap == old(importMap.simpleNameTypeMap)
      ensures old(Visible(name)).Some? ==> r == Success(old(Visible(name))) && importMap.typeMap == old(importMap.typeMap)
      ensures old(Visible(name)).None? && StaticSubtype(name).Some? ==> r == Success(Some(Type(StaticSubtype(name).value)))
      ensures old(Visible(name)).None? && StaticSubtype(name).None? && !NoWildcardSubtype(importMap.subtypeAsterisk, name) ==>
        r.Success? && r.value.Some? && r.value.value.Type? &&
        WildcardSubtype(importMap.subtypeAsterisk, name, r.value.value.typeInfo)
      ensures old(NoSimpleName(name)) && '.' !in name ==>
        r == old(Unqualified(name, complain)) && importMap.typeMap == old(importMap.typeMap)
      ensures old(NoSimpleName(name)) && '.' in name && old(GetFullyQualified(name, false)) != Success(None) ==>
        r == AsNamed(old(GetFullyQualified(name, false)))
      ensures old(NoSimpleName(name)) && '.' in name && old(GetFullyQualified(name, false)) == Success(None) &&
              old(Visible(Prefix(name))).Some? ==>
        r == old(ThroughPrefix(Success(Visible(Prefix(name))), LastSegment(name), complain))
      ensures old(NoSimpleName(name)) && '.' in name && old(GetFullyQualified(name, false)) == Success(None) &&
              old(Visible(Prefix(name))).None? ==>
        PrefixOnDemand(name, complain, r, old(importMap.typeMap))
      decreases |name|, 1
    {
      ChainAllocated();
      var simple := GetSimpleName(name);
      if simple.Some? {
        return Success(simple);
      }
      LastIndexOfLast(name, '.');
      if LastIndexOf(name, '.') >= 0 {
        assert Visible(Prefix(name)) == old(Visible(Prefix(name)));
        r := GetQualified(name, complain);
        return;
      }
      if "java.lang." + name in typeMap.known {
        return Success(Some(Type(typeMap.known["java.lang." + name])));
      }
      r := AsNamed(GetFullyQualified(packageName + "." + name, complain));
    }

    /** The dotted case of `get`: fully qualified first, else through the prefix. */
    method GetQualified(name: string, complain: bool) returns (r: Try<Option<NamedType>>)
      requires Valid() && '.' in name
      modifies importMap`typeMap, importMap`simpleNameTypeMap
      ensures importMap.simpleNameTypeMap == old(importMap.simpleNameTypeMap)
      ensures old(GetFullyQualified(name, false)) != Success(None) ==> r == AsNamed(old(GetFullyQualified(name, false)))
      ensures old(GetFullyQualified(name, false)) == Success(None) && old(Visible(Prefix(name))).Some? ==>
        r == old(ThroughPrefix(Success(Visible(Prefix(name))), LastSegment(name), complain))
      ensures old(GetFullyQualified(name, false)) == Success(None) && old(Visible(Prefix(name))).None? ==>
        PrefixOnDemand(name, complain, r, old(importMap.typeMap))
      decreases |name|, 0
    {
      var fullyQualified := GetFullyQualified(name, false);
      if fullyQualified != Success(None) {
        return AsNamed(fullyQualified);
      }
      LastIndexOfLast(name, '.');
      var dot := LastIndexOf(name, '.');
      var prefixType := Get(name[..dot], complain);
      match prefixType {
        case Failure(e) => return Failure(e);
        case Success(Some(Type(typeInfo))) =>
          var fqn := typeInfo.fullyQualifiedName + "." + name[dot + 1..];
          return AsNamed(GetFullyQualified(fqn, complain));
        case Success(_) => return Failure(UnsupportedOperation("?"));
      }
    }

    /**
     * A one-segment prefix that no stage finds, neither java.lang nor the
     * package, makes the dotted lookup throw "?" when it does not complain.
     */
    lemma UnresolvedPrefixThrows(name: string)
      requires Valid() && '.' in name && '.' !in Prefix(name) && NoSimpleName(Prefix(name))
      requires "java.lang." + Prefix(name) !in typeMap.known
      requires GetFullyQualified(packageName + "." + Prefix(name), false) == Success(None)
      ensures ThroughPrefix(Unqualified(Prefix(name), false), LastSegment(name), false) == Failure(UnsupportedOperation("?"))
    {
    }

    /** This context never occurs in its parent's chain. */
    lemma ParentChainExcludes()
      requires Valid() && parentContext != null
      ensures this !in parentContext.Chain()
    {
    }

    /** `addToContext(namedType)`: always stored under its simple name. */
    method AddToContext(namedType: NamedType)
      requires Valid()
      modifies this`contextMap
      ensures contextMap == old(contextMap)[SimpleName(namedType) := namedType]
      ensures Visible(SimpleName(namedType)) == Some(namedType)
      ensures parentContext != null ==> forall n :: parentContext.Visible(n) == old(parentContext.Visible(n))
    {
      AddToContextIfAllowed(namedType, true);
    }

    /** Stored under its simple name when overwriting is allowed or the name is free. */
    method AddToContextIfAllowed(namedType: NamedType, allowOverwrite: bool)
      requires Valid()
      modifies this`contextMap
      ensures contextMap == if allowOverwrite || SimpleName(namedType) !in old(contextMap)
        then old(contextMap)[SimpleName(namedType) := namedType] else old(contextMap)
      ensures allowOverwrite ==> Visible(SimpleName(namedType)) == Some(namedType)
      ensures SimpleName(namedType) in contextMap
      ensures parentContext != null ==> forall n :: parentContext.Visible(n) == old(parentContext.Visible(n))
    {
      AddToContextAs(SimpleName(namedType), namedType, allowOverwrite);
    }

    /** The same rule under an alternative name. */
    method AddToContextAs(altName: string, namedType: NamedType, allowOverwrite: bool)
      requires Valid()
      modifies this`contextMap
      ensures contextMap == if allowOverwrite || altName !in old(contextMap) then old(contextMap)[altName := namedType] else old(contextMap)
      ensures allowOverwrite ==> Visible(altName) == Some(namedType)
      ensures altName in contextMap
      ensures parentContext != null ==> forall n :: parentContext.Visible(n) == old(parentContext.Visible(n))
    {
      if parentContext != null {
        ParentChainExcludes();
      }
      if allowOverwrite || altName !in contextMap {
        contextMap := contextMap[altName := namedType];
      }
    }

    /**
     * A single-type import: a wildcard import is not supported; otherwise the
     * type, which must be known, becomes a direct import and enters the context.
     */
    method AddToImportMap(importString: string) returns (failure: Option<Exception>)
      requires Valid()
      modifies this`contextMap, importMap`typeMap, importMap`simpleNameTypeMap
      ensures EndsWith(importString, ".*") ==> failure == Some(UnsupportedOperation("NYI"))
      ensures !EndsWith(importString, ".*") && importString !in typeMap.known ==> failure == Some(NullPointer)
      ensures failure.Some? ==>
        contextMap == old(contextMap) && importMap.typeMap == old(importMap.typeMap) &&
        importMap.simpleNameTypeMap == old(importMap.simpleNameTypeMap)
      ensures failure.None? <==> !EndsWith(importString, ".*") && importString in typeMap.known
      ensures failure.None? ==>
        var t := typeMap.known[importString];
        importMap.typeMap == (if importString in old(importMap.typeMap) then old(importMap.typeMap) else old(importMap.typeMap)[importString := t]) &&
        importMap.simpleNameTypeMap == old(importMap.simpleNameTypeMap)[t.simpleName := t] &&
        contextMap == old(contextMap)[t.simpleName := Type(t)]
    {
      if EndsWith(importString, ".*") {
        return Some(UnsupportedOperation("NYI"));
      }
      if importString !in typeMap.known {
        return Some(NullPointer);
      }
      var typeInfo := typeMap.known[importString];
      importMap.PutTypeMap(importString, typeInfo, false, true);
      AddToContext(Type(typeInfo));
      return None;
    }

    /** An import registered in the import map; one that is not direct also enters the context. */
    method AddImport(typeInfo: TypeInfo, highPriority: bool, directImport: bool)
      requires Valid()
      modifies this`contextMap, importMap`typeMap, importMap`simpleNameTypeMap
      ensures importMap.typeMap == if highPriority || typeInfo.fullyQualifiedName !in old(importMap.typeMap)
        then old(importMap.typeMap)[typeInfo.fullyQualifiedName := typeInfo] else old(importMap.typeMap)
      ensures importMap.simpleNameTypeMap == if directImport
        then old(importMap.simpleNameTypeMap)[typeInfo.simpleName := typeInfo] else old(importMap.simpleNameTypeMap)
      ensures contextMap == if !directImport && (highPriority || typeInfo.simpleName !in old(contextMap))
        then old(contextMap)[typeInfo.simpleName := Type(typeInfo)] else old(contextMap)
    {
      importMap.PutTypeMap(typeInfo.fullyQualifiedName, typeInfo, highPriority, directImport);
      if !directImport {
        AddToContextIfAllowed(Type(typeInfo), highPriority);
      }
    }

    /** A wildcard import changes the import map only; its nested types are found on demand. */
    method AddImportWildcard(typeInfo: TypeInfo)
      modifies importMap`subtypeAsterisk
      ensures importMap.subtypeAsterisk == old(importMap.subtypeAsterisk) + {typeInfo}
      ensures contextMap == old(contextMap)
    {
      importMap.AddToSubtypeAsterisk(typeInfo);
    }

    method AddImportStaticWildcard(typeInfo: TypeInfo)
      modifies importMap`staticAsterisk, importMap`subtypeAsterisk
      ensures importMap.subtypeAsterisk == old(importMap.subtypeAsterisk) + {typeInfo}
      ensures typeInfo in importMap.staticAsterisk && contextMap == old(contextMap)
    {
      importMap.AddStaticAsterisk(typeInfo);
    }

    method AddImportStatic(typeInfo: TypeInfo, member: string)
      modifies importMap`staticMemberToTypeInfo
      ensures importMap.staticMemberToTypeInfo == old(importMap.staticMemberToTypeInfo)[member := typeInfo]
      ensures contextMap == old(contextMap)
    {
      importMap.PutStaticMemberToTypeInfo(member, typeInfo);
    }

    predicate IsKnown(fullyQualified: string)
    {
      fullyQualified in typeMap.known
    }
  }

  const EntryType := TypeInfo("java.util.Map.Entry", "Entry", [])
  const MapType := TypeInfo("java.util.Map", "Map", [EntryType])

  /** How the import map of `import java.util.Map;` answers for the two names `Map.Entry` resolves through. */
  lemma ImportOfMapAnswers()
    ensures IsImportedIn(map["java.util.Map" := MapType], "Map.Entry") == None
    ensures IsImportedIn(map["java.util.Map" := MapType], "java.util.Map.Entry") == Some(EntryType)
  {
    var tm := map["java.util.Map" := MapType];
    assert "Map.Entry" == "Map" + "." + "Entry";
    LastDot("Map", "Entry");
    NotImportedWithoutDot(tm, "Map");
    assert "java.util.Map.Entry" == "java.util.Map" + "." + "Entry";
    ImportedThroughOuter(tm, "java.util.Map", "Entry");
  }

  /** The pieces of the name `Map.Entry`. */
  lemma MapEntryName()
    ensures '.' in "Map.Entry" && Prefix("Map.Entry") == "Map" && LastSegment("Map.Entry") == "Entry"
    ensures MapType.fullyQualifiedName + "." + LastSegment("Map.Entry") == "java.util.Map.Entry"
  {
    assert "Map.Entry" == "Map" + "." + "Entry";
    LastDot("Map", "Entry");
  }

  /**
   * `Map.Entry` after `import java.util.Map;`: not a fully qualified name,
   * so the prefix `Map` is resolved through the import's simple name and
   * `java.util.Map.Entry` is found as a nested type of the imported type.
   */
  method SemiQualifiedThroughImport() returns (r: Try<Option<NamedType>>)
    ensures r == Success(Some(Type(EntryType)))
  {
    var importMap := new ImportMap();
    var known := map["java.util.Map" := MapType];
    var context := new TypeContext(TypeMapBuilder(known, (fqn, complain) => Success(None)), "a.b", importMap);
    context.AddImport(MapType, false, true);
    assert importMap.typeMap == map["java.util.Map" := MapType];
    ImportOfMapAnswers();
    MapEntryName();
    assert context.NoSimpleName("Map.Entry");
    assert context.GetFullyQualified("Map.Entry", false) == Success(None);
    assert context.Visible(Prefix("Map.Entry")) == Some(Type(MapType));
    assert context.GetFullyQualified(MapType.fullyQualifiedName + "." + LastSegment("Map.Entry"), false) == Success(Some(EntryType));
    assert context.ThroughPrefix(Success(context.Visible(Prefix("Map.Entry"))), LastSegment("Map.Entry"), false)
        == Success(Some(Type(EntryType)));
    r := context.Get("Map.Entry", false);
  }
}
