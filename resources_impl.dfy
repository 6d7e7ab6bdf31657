/**
 * The class-path resources of the byte-code inspector's test set-up: a trie
 * from path segments to the URIs found there, queried with a fully qualified
 * type name, where a nested type lives in a file whose name joins the
 * enclosing types with '$'.
 */
module ResourcesImpl {
  import opened JavaLang

  /** The trie, seen as a map from a full segment path to the URIs stored at it. */
  type Trie = map<seq<string>, seq<string>>

  datatype SourceFile = SourceFile(path: string, uri: string)

  /** Trie.get: the URIs stored at exactly `parts`, empty when there are none. */
  function Hits(data: Trie, parts: seq<string>): seq<string>
  {
    if parts in data then data[parts] else []
  }

  // ---------------------------------------------------------------------------
  // fqnToPath

  /**
   * The path tried when the first `i` segments of a name are packages: those
   * segments as directories, then a file named after the remaining segments
   * joined by '$', with the extension.
   */
  function Candidate(segs: seq<string>, i: nat, ext: string): (r: seq<string>)
    requires 1 <= i < |segs|
    ensures |r| == i + 1 && r[..i] == segs[..i]
  {
    segs[..i] + [Join(segs[i..], "$") + ext]
  }

  /** Candidate `i` holds at least one URI. */
  predicate Present(data: Trie, segs: seq<string>, ext: string, i: nat)
    requires 1 <= i < |segs|
  {
    Hits(data, Candidate(segs, i, ext)) != []
  }

  /** The source file of a present candidate: its segments joined by '/', and its first URI. */
  function FileAt(data: Trie, segs: seq<string>, ext: string, i: nat): SourceFile
    requires 1 <= i < |segs| && Present(data, segs, ext, i)
  {
    SourceFile(Join(Candidate(segs, i, ext), "/"), Hits(data, Candidate(segs, i, ext))[0])
  }

  /** The first split point at or after `i` whose candidate path holds a URI. */
  function FirstHit(data: Trie, segs: seq<string>, ext: string, i: nat): Option<SourceFile>
    requires 1 <= i
    decreases |segs| - i
  {
    if i >= |segs| then None
    else if Present(data, segs, ext, i) then Some(FileAt(data, segs, ext, i))
    else FirstHit(data, segs, ext, i + 1)
  }

  /** fqnToPath: the shortest package prefix whose candidate file is present, or nothing. */
  function FqnToPathSpec(data: Trie, fqn: string, ext: string): Option<SourceFile>
  {
    FirstHit(data, Split(fqn, '.'), ext, 1)
  }

  /** The search finds nothing exactly when no candidate from `i` on is present. */
  lemma {:induction false} FirstHitNone(data: Trie, segs: seq<string>, ext: string, i: nat)
    requires 1 <= i
    ensures FirstHit(data, segs, ext, i).None? <==> forall j :: i <= j < |segs| ==> !Present(data, segs, ext, j)
    decreases |segs| - i
  {
    if i < |segs| && !Present(data, segs, ext, i) {
      FirstHitNone(data, segs, ext, i + 1);
    }
  }

  /** Candidate `j` is present and none from `i` up to it is. */
  predicate FirstPresent(data: Trie, segs: seq<string>, ext: string, i: nat, j: nat)
    requires 1 <= i
  {
    i <= j < |segs| && Present(data, segs, ext, j) && forall l :: i <= l < j ==> !Present(data, segs, ext, l)
  }

  /**
   * Otherwise it returns the file of the first candidate from `i` on that is
   * present.
   */
  lemma {:induction false} FirstHitIsFirst(data: Trie, segs: seq<string>, ext: string, i: nat)
    requires 1 <= i && FirstHit(data, segs, ext, i).Some?
    ensures exists j :: FirstPresent(data, segs, ext, i, j) && FirstHit(data, segs, ext, i) == Some(FileAt(data, segs, ext, j))
    decreases |segs| - i
  {
    if Present(data, segs, ext, i) {
      assert FirstPresent(data, segs, ext, i, i);
    } else {
      FirstHitIsFirst(data, segs, ext, i + 1);
      var j :| FirstPresent(data, segs, ext, i + 1, j) && FirstHit(data, segs, ext, i + 1) == Some(FileAt(data, segs, ext, j));
      FirstPresentSkips(data, segs, ext, i, j);
    }
  }

  lemma FirstPresentSkips(data: Trie, segs: seq<string>, ext: string, i: nat, j: nat)
    requires 1 <= i < |segs| && !Present(data, segs, ext, i) && FirstPresent(data, segs, ext, i + 1, j)
    ensures FirstPresent(data, segs, ext, i, j)
  {
    forall l | i <= l < j
      ensures !Present(data, segs, ext, l)
    {
      if l > i {
        assert i + 1 <= l < j;
      }
    }
  }

  /** A name without a dot has no package part and is never found. */
  lemma NoPackageNotFound(data: Trie, fqn: string, ext: string)
    requires '.' !in fqn
    ensures FqnToPathSpec(data, fqn, ext) == None
  {
  }

  // ---------------------------------------------------------------------------
  // the resources object

  class Resources {
    var data: Trie

    /** The resources over a trie already filled from the class path. */
    constructor(data: Trie)
      ensures this.data == data
    {
      this.data := data;
    }

    /**
     * fqnToPath: tries the package prefixes from the shortest on, building
     * each candidate file name from the remaining segments.
     */
    method FqnToPath(fqn: string, extension: string) returns (r: Option<SourceFile>)
      ensures r == FqnToPathSpec(data, fqn, extension)
    {
      var splitDot := Split(fqn, '.');
      var i := 1;
      while i < |splitDot|
        invariant 1 <= i
        invariant FirstHit(data, splitDot, extension, i) == FqnToPathSpec(data, fqn, extension)
        decreases |splitDot| - i
      {
        var last := JoinFrom(splitDot, i);
        var parts := splitDot[..i] + [last + extension];
        assert parts == Candidate(splitDot, i, extension);
        var uris := Hits(data, parts);
        if |uris| > 0 {
          return Some(SourceFile(Join(parts, "/"), uris[0]));
        }
        i := i + 1;
      }
      return None;
    }

    /** The segments from `i` on, joined by '$' from left to right. */
    static method JoinFrom(segs: seq<string>, i: nat) returns (last: string)
      requires i < |segs|
      ensures last == Join(segs[i..], "$")
    {
      last := segs[i];
      var j := i + 1;
      while j < |segs|
        invariant j <= |segs|
        invariant last == Join(segs[i..j], "$")
        decreases |segs| - j
      {
        assert segs[i..j + 1][..j - i] == segs[i..j];
        last := last + "$" + segs[j];
        j := j + 1;
      }
      assert segs[i..j] == segs[i..];
    }
  }
}
