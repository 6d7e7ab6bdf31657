/**
 * The resolution of a Javadoc reference `Type#member(parameters)`: the tag's
 * content is cut at the first `#` into a type part and a member part, the
 * type is looked up, and the member is searched among its fields, methods
 * and constructors; plus the source positions recorded for the dotted
 * prefixes of a qualified name.
 */
module ParseHelper {
  import opened JavaLang
  import opened JavaDocParser

  // ---------------------------------------------------------------------------
  // the types a reference can name, as far as the search looks at them

  /**
   * A parameter's type, through what parameterTypeMatch compares: a type
   * variable by its printed forms (plain, and with `...` for an array) and
   * its array depth, any other type by the names of its type.
   */
  datatype ParameterType =
    | TypeVariableType(printed: string, printedVarargs: string, arrays: nat)
    | ClassType(fullyQualifiedName: string, simpleName: string, fromPrimaryTypeDownwards: string)

  datatype Method = Method(name: string, parameterTypes: seq<ParameterType>)

  datatype Field = Field(name: string)

  /** A type with its members, each list in declaration order. */
  datatype TypeInfo = TypeInfo(simpleName: string, fields: seq<Field>, methods: seq<Method>, constructors: seq<Method>)

  datatype Reference = TypeReference(typeInfo: TypeInfo) | FieldReference(field: Field) | MethodReference(methodInfo: Method)

  /** What happens to the tag: returned as it was, or with a resolved reference, possibly null. */
  datatype Resolution = Unchanged | ResolvedTo(reference: Option<Reference>)

  // ---------------------------------------------------------------------------
  // cutting the content

  /** The type part and the member part, each trimmed; no member part without a `#`. */
  function SplitAtHash(content: string): (string, Option<string>)
  {
    var hash := IndexOf(content, '#', 0);
    if hash < 0 then (Trim(content), None)
    else (Trim(content[..hash]), Some(Trim(content[hash + 1..])))
  }

  /** A content without `#` is all type part; with one, the parts are what lies on either side of the first. */
  lemma SplitAtHashParts(t: string, m: string)
    requires '#' !in t
    ensures SplitAtHash(t) == (Trim(t), None)
    ensures SplitAtHash(t + "#" + m) == (Trim(t), Some(Trim(m)))
  {
    IndexOfFirst(t, '#', 0);
    var c := t + "#" + m;
    IndexOfFirstOccurrence(c, '#', |t|);
    assert c[..|t|] == t && c[|t| + 1..] == m;
  }

  // ---------------------------------------------------------------------------
  // parameter lists

  /** The \s characters after a comma, dropped. */
  function SkipSpaces(s: string): (r: string)
    ensures |r| <= |s| && r == s[|s| - |r|..]
    ensures r == [] || !IsSpace(r[0])
  {
    if s != [] && IsSpace(s[0]) then SkipSpaces(s[1..]) else s
  }

  /** Every piece after the first loses the white space the separator pattern consumes. */
  function SkipAll(ps: seq<string>): (r: seq<string>)
    ensures |r| == |ps|
  {
    if ps == [] then [] else [SkipSpaces(ps[0])] + SkipAll(ps[1..])
  }

  /** split(",\\s*"): cut at every comma together with the white space after it, trailing empty strings dropped. */
  function SplitParameters(s: string): seq<string>
  {
    var ps := Pieces(s, ',');
    DropTrailingEmpty([ps[0]] + SkipAll(ps[1..]))
  }

  /** The parameter types written between the parentheses: none when blank. */
  function ParameterStrings(s: string): seq<string>
  {
    if Trim(s) == "" then [] else SplitParameters(s)
  }

  /** The names that stand for themselves in a list: not empty, no comma, no white space or control character first. */
  predicate PlainName(n: string)
  {
    n != "" && ',' !in n && n[0] > ' '
  }

  /** Each name behind a space. */
  function Spaced(ns: seq<string>): (r: seq<string>)
    ensures |r| == |ns|
    ensures forall k :: 0 <= k < |ns| ==> r[k] == " " + ns[k]
  {
    if ns == [] then [] else [" " + ns[0]] + Spaced(ns[1..])
  }

  lemma {:induction false} JoinSpaced(ns: seq<string>)
    requires |ns| >= 1
    ensures Join(ns, ", ") == Join([ns[0]] + Spaced(ns[1..]), ",")
    decreases |ns|
  {
    if |ns| > 1 {
      var init := ns[..|ns| - 1];
      JoinSpaced(init);
      assert init[1..] == ns[1..|ns| - 1];
      var xs := [ns[0]] + Spaced(ns[1..]);
      assert xs[..|xs| - 1] == [ns[0]] + Spaced(init[1..]);
      assert xs[|xs| - 1] == " " + ns[|ns| - 1];
      assert Join(ns, ", ") == Join(init, ", ") + ", " + ns[|ns| - 1];
      assert Join(xs, ",") == Join(xs[..|xs| - 1], ",") + "," + xs[|xs| - 1];
    }
  }

  lemma {:induction false} SkipSpaced(ns: seq<string>)
    requires forall k :: 0 <= k < |ns| ==> PlainName(ns[k])
    ensures SkipAll(Spaced(ns)) == ns
    decreases |ns|
  {
    if ns != [] {
      var s := " " + ns[0];
      assert s[1..] == ns[0];
      assert SkipSpaces(s) == ns[0];
      SkipSpaced(ns[1..]);
      assert Spaced(ns)[1..] == Spaced(ns[1..]);
    }
  }

  /** A list of plain names written with ", " between them splits back into those names. */
  lemma SplitParametersOfJoin(ns: seq<string>)
    requires |ns| >= 1 && forall k :: 0 <= k < |ns| ==> PlainName(ns[k])
    ensures ParameterStrings(Join(ns, ", ")) == ns
  {
    JoinEndsNonBlank(ns);
    PiecesOfSpacedJoin(ns);
    SkippedPieces(ns, Pieces(Join(ns, ", "), ','));
    NoTrailingEmpty(ns);
  }

  /** Stripped after the first, the first name and the others behind their spaces give the names. */
  lemma SkippedPieces(ns: seq<string>, ps: seq<string>)
    requires |ns| >= 1 && forall k :: 0 <= k < |ns| ==> PlainName(ns[k])
    requires ps == [ns[0]] + Spaced(ns[1..])
    ensures [ps[0]] + SkipAll(ps[1..]) == ns
  {
    SkipSpaced(ns[1..]);
    assert ps[1..] == Spaced(ns[1..]);
    assert [ns[0]] + ns[1..] == ns;
  }

  /** The comma pieces of such a list are the first name and then each other name behind its space. */
  lemma PiecesOfSpacedJoin(ns: seq<string>)
    requires |ns| >= 1 && forall k :: 0 <= k < |ns| ==> PlainName(ns[k])
    ensures Pieces(Join(ns, ", "), ',') == [ns[0]] + Spaced(ns[1..])
  {
    var xs := [ns[0]] + Spaced(ns[1..]);
    JoinSpaced(ns);
    forall k | 0 <= k < |xs| ensures ',' !in xs[k] {
      if k > 0 {
        assert xs[k] == " " + ns[k];
      }
    }
    PiecesOfJoin(xs, ',');
    assert [','] == ",";
  }

  lemma NoTrailingEmpty(ns: seq<string>)
    requires |ns| >= 1 && ns[|ns| - 1] != ""
    ensures DropTrailingEmpty(ns) == ns
  {
  }


  /** A join of plain names has a first character that trim keeps. */
  lemma JoinEndsNonBlank(ns: seq<string>)
    requires |ns| >= 1 && forall k :: 0 <= k < |ns| ==> PlainName(ns[k])
    ensures Trim(Join(ns, ", ")) != ""
  {
    JoinStartsWith(ns);
    TrimKeeps(Join(ns, ", "));
  }

  lemma {:induction false} JoinStartsWith(ns: seq<string>)
    requires |ns| >= 1 && ns[0] != ""
    ensures |Join(ns, ", ")| >= 1 && Join(ns, ", ")[0] == ns[0][0]
    decreases |ns|
  {
    if |ns| > 1 {
      JoinStartsWith(ns[..|ns| - 1]);
    }
  }

  /** trim leaves something of a string that starts with a character above U+0020. */
  lemma TrimKeeps(s: string)
    requires |s| >= 1 && s[0] > ' '
    ensures Trim(s) != ""
    decreases |s|
  {
    if s[|s| - 1] <= ' ' {
      TrimKeeps(s[..|s| - 1]);
    }
  }

  // ---------------------------------------------------------------------------
  // matching parameters

  /** parameterTypeMatch: a written type against a parameter's type. */
  predicate ParameterTypeMatch(pt: ParameterType, typeString: string)
  {
    match pt
    case TypeVariableType(printed, printedVarargs, arrays) =>
      printed == typeString || (arrays > 0 && printedVarargs == typeString)
    case ClassType(fqn, simpleName, fromPrimary) =>
      typeString == fqn || typeString == simpleName || typeString == fromPrimary
  }

  /** The written types match the parameters one by one, and there are as many of each. */
  predicate ParametersMatch(parameters: seq<ParameterType>, types: seq<string>)
  {
    |parameters| == |types| && forall k :: 0 <= k < |parameters| ==> ParameterTypeMatch(parameters[k], types[k])
  }

  /** parameterTypesMatch: a size check, then a loop over the parameters that stops at the first mismatch. */
  method ParameterTypesMatch(parameters: seq<ParameterType>, types: seq<string>) returns (r: bool)
    ensures r == ParametersMatch(parameters, types)
  {
    if |parameters| != |types| {
      return false;
    }
    var k := 0;
    while k < |parameters|
      invariant k <= |parameters|
      invariant forall j :: 0 <= j < k ==> ParameterTypeMatch(parameters[j], types[j])
    {
      if !ParameterTypeMatch(parameters[k], types[k]) {
        return false;
      }
      k := k + 1;
    }
    return true;
  }

  // ---------------------------------------------------------------------------
  // finding the member

  /** ASCII letters compared without their case. */
  function LowerCase(c: char): char
  {
    if 'A' <= c <= 'Z' then (c as int + 32) as char else c
  }

  predicate EqualsIgnoreCase(a: string, b: string)
  {
    |a| == |b| && forall k :: 0 <= k < |a| ==> LowerCase(a[k]) == LowerCase(b[k])
  }

  /** getFieldByName: the first field of that name. */
  function FieldNamed(fields: seq<Field>, name: string): (r: Option<Field>)
    ensures r.Some? ==> r.value in fields && r.value.name == name
    ensures r.None? ==> forall k :: 0 <= k < |fields| ==> fields[k].name != name
  {
    if fields == [] then None
    else if fields[0].name == name then Some(fields[0])
    else FieldNamed(fields[1..], name)
  }

  /** The first method whose name equals `name` ignoring case. */
  function MethodNamedIgnoringCase(methods: seq<Method>, name: string): (r: Option<Method>)
    ensures r.Some? ==> r.value in methods && EqualsIgnoreCase(r.value.name, name)
    ensures r.None? ==> forall k :: 0 <= k < |methods| ==> !EqualsIgnoreCase(methods[k].name, name)
  {
    if methods == [] then None
    else if EqualsIgnoreCase(methods[0].name, name) then Some(methods[0])
    else MethodNamedIgnoringCase(methods[1..], name)
  }

  /**
   * A method the stream lets through: of the given name when one is asked
   * for, and with matching parameters when a parameter list was written.
   */
  predicate Candidate(m: Method, name: Option<string>, types: Option<seq<string>>)
  {
    (name.None? || m.name == name.value) && (types.None? || ParametersMatch(m.parameterTypes, types.value))
  }

  /** findFirst over the filtered stream. */
  function FirstCandidate(ms: seq<Method>, name: Option<string>, types: Option<seq<string>>): (r: Option<Method>)
  {
    if ms == [] then None
    else if Candidate(ms[0], name, types) then Some(ms[0])
    else FirstCandidate(ms[1..], name, types)
  }

  /** The first candidate wins: it is one, and none comes before it; without one there is none at all. */
  lemma {:induction false} FirstCandidateIsFirst(ms: seq<Method>, name: Option<string>, types: Option<seq<string>>)
    ensures var r := FirstCandidate(ms, name, types);
      (r.None? <==> forall k :: 0 <= k < |ms| ==> !Candidate(ms[k], name, types)) &&
      (r.Some? ==> exists k :: 0 <= k < |ms| && ms[k] == r.value && Candidate(ms[k], name, types) &&
                              forall j :: 0 <= j < k ==> !Candidate(ms[j], name, types))
  {
    if ms != [] && !Candidate(ms[0], name, types) {
      FirstCandidateIsFirst(ms[1..], name, types);
      var r := FirstCandidate(ms[1..], name, types);
      if r.Some? {
        var k :| 0 <= k < |ms[1..]| && ms[1..][k] == r.value && Candidate(ms[1..][k], name, types) &&
                 forall j :: 0 <= j < k ==> !Candidate(ms[1..][j], name, types);
        assert ms[k + 1] == r.value;
        forall j | 0 <= j < k + 1 ensures !Candidate(ms[j], name, types) {
          if j > 0 {
            assert ms[j] == ms[1..][j - 1];
          }
        }
      } else {
        forall k | 0 <= k < |ms| ensures !Candidate(ms[k], name, types) {
          if k > 0 {
            assert ms[k] == ms[1..][k - 1];
          }
        }
      }
    }
  }

  /** A written parameter list of another length matches no method or constructor. */
  lemma ArityMismatch(m: Method, name: Option<string>, types: seq<string>)
    requires |m.parameterTypes| != |types|
    ensures !Candidate(m, name, Some(types))
  {
  }

  /** A member named like the type is a constructor; any other name is searched among the methods. */
  function MethodLookup(t: TypeInfo, member: string, types: Option<seq<string>>): Option<Reference>
  {
    var found :=
      if member == t.simpleName then FirstCandidate(t.constructors, None, types)
      else FirstCandidate(t.methods, Some(member), types);
    if found.Some? then Some(MethodReference(found.value)) else None
  }

  /** What a member descriptor resolves to in type `t`. */
  function ResolveMember(t: TypeInfo, memberDescriptor: string): Resolution
  {
    var open := IndexOf(memberDescriptor, '(', 0);
    if open < 0 then
      (var member := Trim(memberDescriptor);
       var field := FieldNamed(t.fields, member);
       if field.Some? then ResolvedTo(Some(FieldReference(field.value)))
       else
         var byName := MethodNamedIgnoringCase(t.methods, member);
         if byName.Some? then ResolvedTo(Some(MethodReference(byName.value)))
         else ResolvedTo(MethodLookup(t, member, None)))
    else
      var member := memberDescriptor[..open];
      var close := IndexOf(memberDescriptor, ')', open + 1);
      if close < 0 then Unchanged
      else ResolvedTo(MethodLookup(t, member, Some(ParameterStrings(memberDescriptor[open + 1..close]))))
  }

  /**
   * parseJavaDocReferenceInTag: the type part names the current type when
   * `#` comes first, otherwise it is looked up; a reference whose type is
   * not found is left unchanged, and one without a member part is the type.
   */
  function ResolveReference(current: TypeInfo, types: map<string, TypeInfo>, tag: Tag): (r: Resolution)
  {
    var hash := IndexOf(tag.content, '#', 0);
    var (packageOrType, memberDescriptor) := SplitAtHash(tag.content);
    var named := if hash == 0 then Some(current) else if packageOrType in types then Some(types[packageOrType]) else None;
    if named.None? then Unchanged
    else if memberDescriptor.None? then ResolvedTo(Some(TypeReference(named.value)))
    else ResolveMember(named.value, memberDescriptor.value)
  }

  /** A `#` first refers to the current type, whatever the type part would look up. */
  lemma HashFirstIsCurrentType(current: TypeInfo, types: map<string, TypeInfo>, tag: Tag)
    requires tag.content != [] && tag.content[0] == '#'
    ensures ResolveReference(current, types, tag) == ResolveMember(current, Trim(tag.content[1..]))
  {
  }

  /** Without a `#` the reference is the type the content names, or it stays unresolved when there is none. */
  lemma TypeOnly(current: TypeInfo, types: map<string, TypeInfo>, tag: Tag)
    requires '#' !in tag.content
    ensures Trim(tag.content) in types ==> ResolveReference(current, types, tag) == ResolvedTo(Some(TypeReference(types[Trim(tag.content)])))
    ensures Trim(tag.content) !in types ==> ResolveReference(current, types, tag) == Unchanged
  {
    SplitAtHashParts(tag.content, "");
  }

  /** `Type#member` with a known type resolves the member there. */
  lemma TypeAndMember(current: TypeInfo, types: map<string, TypeInfo>, tag: Tag, t: string, m: string)
    requires tag.content == t + "#" + m && '#' !in t && t != "" && Trim(t) in types
    ensures ResolveReference(current, types, tag) == ResolveMember(types[Trim(t)], Trim(m))
  {
    SplitAtHashParts(t, m);
    var c := t + "#" + m;
    IndexOfFirstOccurrence(c, '#', |t|);
  }

  /** Without parentheses a field of that name comes first, then the first method of that name in any case. */
  lemma FieldBeforeMethod(t: TypeInfo, member: string)
    requires '(' !in member
    ensures FieldNamed(t.fields, Trim(member)).Some? ==>
      ResolveMember(t, member) == ResolvedTo(Some(FieldReference(FieldNamed(t.fields, Trim(member)).value)))
    ensures FieldNamed(t.fields, Trim(member)).None? && MethodNamedIgnoringCase(t.methods, Trim(member)).Some? ==>
      ResolveMember(t, member) == ResolvedTo(Some(MethodReference(MethodNamedIgnoringCase(t.methods, Trim(member)).value)))
  {
    IndexOfFirst(member, '(', 0);
  }

  /** A `(` without a `)` after it leaves the tag as it was. */
  lemma MissingCloseUnchanged(t: TypeInfo, name: string, rest: string)
    requires '(' !in name && ')' !in rest
    ensures ResolveMember(t, name + "(" + rest) == Unchanged
  {
    var d := name + "(" + rest;
    IndexOfFirstOccurrence(d, '(', |name|);
    IndexOfFirst(d, ')', |name| + 1);
    forall k | |name| + 1 <= k < |d| ensures d[k] != ')' {
      assert d[k] == rest[k - |name| - 1];
    }
  }

  /** `name(types)`: the method or constructor of that name whose parameters match the written list. */
  lemma ParenthesizedMember(t: TypeInfo, name: string, params: string, rest: string)
    requires '(' !in name && ')' !in params
    ensures ResolveMember(t, name + "(" + params + ")" + rest) == ResolvedTo(MethodLookup(t, name, Some(ParameterStrings(params))))
  {
    var d := name + "(" + params + ")" + rest;
    var close := |name| + 1 + |params|;
    assert d[..|name|] == name;
    assert d[|name| + 1..close] == params;
    ParenthesesAt(d, |name|, close);
  }

  /** indexOf finds the first `(` and the first `)` after it. */
  lemma ParenthesesAt(d: string, open: nat, close: nat)
    requires open < close < |d| && d[open] == '(' && d[close] == ')'
    requires '(' !in d[..open] && ')' !in d[open + 1..close]
    ensures IndexOf(d, '(', 0) == open && IndexOf(d, ')', open + 1) == close
  {
    forall k | 0 <= k < open ensures d[k] != '(' {
      assert d[k] == d[..open][k];
    }
    IndexOfFirstOccurrence(d, '(', open);
    forall k | open + 1 <= k < close ensures d[k] != ')' {
      assert d[k] == d[open + 1..close][k - open - 1];
    }
    IndexOfSkip(d, ')', open + 1, close);
  }

  // ---------------------------------------------------------------------------
  // source positions

  /** makeSource(tag, packageOrType, offset): the characters of `s`, starting `offset` after the reference. */
  function MakeSource(ref: Source, s: string, offset: int): (r: Source)
    ensures r.beginPos == offset + ref.beginPos && r.endPos == r.beginPos + |s| - 1
    ensures r.index == ref.index && r.beginLine == ref.beginLine && r.endLine == ref.endLine
  {
    var beginContent := offset + ref.beginPos;
    Source(ref.index, ref.beginLine, beginContent, ref.endLine, beginContent + |s| - 1)
  }

  /** The total length of the first `n` parts. */
  function LengthOfFirst(split: seq<string>, n: nat): nat
    requires n <= |split|
  {
    if n == 0 then 0 else LengthOfFirst(split, n - 1) + |split[n - 1]|
  }

  /**
   * makeSource(tag, split, i): from the start of the reference to the end of
   * the i-th part, the loop adding each part's length and one for its dot.
   */
  method MakeSourceOfPrefix(ref: Source, split: seq<string>, i: nat) returns (r: Source)
    requires i < |split|
    ensures r == Source(ref.index, ref.beginLine, ref.beginPos, ref.endLine, ref.beginPos + LengthOfFirst(split, i + 1) + i - 1)
  {
    var endPos := ref.beginPos - 1;
    var j := 0;
    while j <= i
      invariant j <= i + 1
      invariant endPos == ref.beginPos - 1 + LengthOfFirst(split, j) + j
    {
      endPos := endPos + |split[j]| + 1;
      j := j + 1;
    }
    endPos := endPos - 1;
    return Source(ref.index, ref.beginLine, ref.beginPos, ref.endLine, endPos);
  }

  /** The first `n` parts joined by dots are their lengths plus a dot between each two. */
  lemma {:induction false} PrefixLength(split: seq<string>, n: nat)
    requires 1 <= n <= |split|
    ensures |Join(split[..n], ".")| == LengthOfFirst(split, n) + n - 1
  {
    if n > 1 {
      PrefixLength(split, n - 1);
      assert split[..n][..n - 1] == split[..n - 1];
    }
  }

  /**
   * The source of prefix `i` ends on the last character of the first i+1
   * dotted parts: when the reference text is the parts joined by dots, its
   * end position is that prefix's last character.
   */
  lemma PrefixSourceEndsWithPrefix(ref: Source, split: seq<string>, i: nat)
    requires i < |split|
    ensures ref.beginPos + LengthOfFirst(split, i + 1) + i - 1 == ref.beginPos + |Join(split[..i + 1], ".")| - 1
  {
    PrefixLength(split, i + 1);
  }
}
