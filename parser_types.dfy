/**
 * The view of a type that the source front end's lookup tables need: its
 * fully qualified name, its simple name and its directly nested types.
 */
module ParserTypes {
  import opened JavaLang

  datatype TypeInfo = TypeInfo(fullyQualifiedName: string, simpleName: string, subTypes: seq<TypeInfo>)

  /** `subTypes().stream().filter(st -> st.simpleName().equals(name)).findFirst()`. */
  function FirstSubtypeNamed(subTypes: seq<TypeInfo>, name: string): (r: Option<TypeInfo>)
    ensures r.Some? ==> r.value in subTypes && r.value.simpleName == name
    ensures r.None? <==> forall k :: 0 <= k < |subTypes| ==> subTypes[k].simpleName != name
  {
    if subTypes == [] then None
    else if subTypes[0].simpleName == name then Some(subTypes[0])
    else FirstSubtypeNamed(subTypes[1..], name)
  }

  /** Position `j` has the name and no earlier one does. */
  predicate FirstNamedAt(subTypes: seq<TypeInfo>, name: string, j: nat)
  {
    j < |subTypes| && subTypes[j].simpleName == name && forall i :: 0 <= i < j ==> subTypes[i].simpleName != name
  }

  /** The first match comes before every other subtype of that name. */
  lemma {:induction false} FirstSubtypeNamedIsFirst(subTypes: seq<TypeInfo>, name: string, k: nat)
    requires k < |subTypes| && subTypes[k].simpleName == name
    ensures FirstSubtypeNamed(subTypes, name).Some?
    ensures exists j :: 0 <= j <= k && FirstNamedAt(subTypes, name, j) &&
                        subTypes[j] == FirstSubtypeNamed(subTypes, name).value
  {
    if subTypes[0].simpleName != name {
      FirstSubtypeNamedIsFirst(subTypes[1..], name, k - 1);
      var j :| 0 <= j <= k - 1 && FirstNamedAt(subTypes[1..], name, j) &&
               subTypes[1..][j] == FirstSubtypeNamed(subTypes[1..], name).value;
      assert subTypes[j + 1] == subTypes[1..][j];
      forall i | 0 <= i < j + 1 ensures subTypes[i].simpleName != name {
        if i > 0 {
          assert subTypes[i] == subTypes[1..][i - 1];
        }
      }
      assert FirstNamedAt(subTypes, name, j + 1);
    } else {
      assert FirstNamedAt(subTypes, name, 0);
    }
  }
}
