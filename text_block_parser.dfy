/**
 * Text blocks (section 3.10.6 of the Java Language Specification) as the
 * parser reads them: strip the opening and closing delimiters, empty the
 * lines that hold only blanks, find the common indentation, remove it
 * (turning a backslash at a line end into a recorded line break), and
 * translate the escapes. The four regular expressions of the parser are
 * written as scans.
 */
module TextBlockParser {
  import opened JavaLang
  import opened EscapeSequence

  /** The formatting the printer needs to write the text block back. */
  datatype TextBlockFormatting = TextBlockFormatting(
    lineBreaks: seq<int>,
    optOutWhiteSpaceStripping: bool,
    trailingClosingQuotes: bool)

  datatype TextBlock = TextBlock(content: string, formatting: TextBlockFormatting)

  const NEL: char := 0x85 as char
  const LINE_SEPARATOR: char := 0x2028 as char
  const PARAGRAPH_SEPARATOR: char := 0x2029 as char

  predicate IsBlank(c: char) { c == ' ' || c == '\t' }

  /** The characters after which `^` matches in a multi-line pattern. */
  predicate IsLineTerminator(c: char)
  {
    c == '\n' || c == '\r' || c == NEL || c == LINE_SEPARATOR || c == PARAGRAPH_SEPARATOR
  }

  /** The length of the run of blanks `[\t ]*` at the front of `t`. */
  function BlankRun(t: string): (r: nat)
    ensures r <= |t|
    ensures r < |t| ==> !IsBlank(t[r])
  {
    if t != [] && IsBlank(t[0]) then 1 + BlankRun(t[1..]) else 0
  }

  lemma {:induction false} BlankRunAllBlank(t: string)
    ensures forall j :: 0 <= j < BlankRun(t) ==> IsBlank(t[j])
    decreases |t|
  {
    if t != [] && IsBlank(t[0]) {
      BlankRunAllBlank(t[1..]);
      assert forall j :: 1 <= j < BlankRun(t) ==> t[j] == t[1..][j - 1];
    }
  }

  /** The length of the line `[^\n]*` at the front of `t`. */
  function LineLength(t: string): (r: nat)
    ensures r <= |t|
  {
    if t != [] && t[0] != '\n' then 1 + LineLength(t[1..]) else 0
  }

  /** The indentation string: `n` spaces. */
  function Spaces(n: nat): (r: string)
    ensures |r| == n && forall j :: 0 <= j < n ==> r[j] == ' '
  {
    seq(n, _ => ' ')
  }

  // ---------------------------------------------------------------------------
  // stripQuotes

  predicate LineStart(s: string, p: nat)
    requires p <= |s|
  {
    p == 0 || IsLineTerminator(s[p - 1])
  }

  /** The end of a match of the opening pattern at `p`: a line start, three quotes, blanks, a newline. */
  function StartMatchEnd(s: string, p: nat): (r: Option<nat>)
    requires p <= |s|
    ensures r.Some? ==> p + 4 <= r.value <= |s| && s[r.value - 1] == '\n'
  {
    if LineStart(s, p) && p + 3 <= |s| && s[p..p + 3] == "\"\"\"" then
      var q := p + 3 + BlankRun(s[p + 3..]);
      if q < |s| && s[q] == '\n' then Some(q + 1) else None
    else None
  }

  /** Matcher.find for the opening pattern, from position `p` on. */
  function FindStart(s: string, p: nat): (r: Option<nat>)
    requires p <= |s|
    ensures r.Some? ==> 4 <= r.value <= |s| && s[r.value - 1] == '\n'
    decreases |s| - p
  {
    if StartMatchEnd(s, p).Some? then StartMatchEnd(s, p)
    else if p == |s| then None
    else FindStart(s, p + 1)
  }

  /**
   * stripQuotes: everything from the newline that ends the opening delimiter
   * up to the three closing characters; no opening delimiter throws, and a
   * source too short for both delimiters fails in substring.
   */
  function StripQuotes(s: string): Try<string>
  {
    match FindStart(s, 0)
    case None => Failure(UnsupportedOperation(""))
    case Some(end) =>
      if end - 1 <= |s| - 3 then Success(s[end - 1..|s| - 3]) else Failure(IndexOutOfBounds)
  }

  /** The opening pattern is found exactly when it matches somewhere. */
  lemma {:induction false} FindStartNone(s: string, p: nat)
    requires p <= |s|
    ensures FindStart(s, p).None? <==> forall q :: p <= q <= |s| ==> StartMatchEnd(s, q).None?
    decreases |s| - p
  {
    if StartMatchEnd(s, p).None? && p < |s| {
      FindStartNone(s, p + 1);
    }
  }

  /** A blank run followed by something that is not a blank has exactly its own length. */
  lemma {:induction false} BlankRunOf(blanks: string, rest: string)
    requires forall j :: 0 <= j < |blanks| ==> IsBlank(blanks[j])
    requires rest == [] || !IsBlank(rest[0])
    ensures BlankRun(blanks + rest) == |blanks|
    decreases |blanks|
  {
    if blanks == [] {
      assert blanks + rest == rest;
    } else {
      BlankRunOf(blanks[1..], rest);
      assert (blanks + rest)[1..] == blanks[1..] + rest;
    }
  }

  /**
   * The delimiters of a literal as the lexer hands it over are stripped and
   * the line feed that ends the opening one is kept.
   */
  lemma StripQuotesOfLiteral(blanks: string, body: string)
    requires forall j :: 0 <= j < |blanks| ==> IsBlank(blanks[j])
    requires body != [] && body[0] == '\n'
    ensures StripQuotes("\"\"\"" + blanks + body + "\"\"\"") == Success(body)
  {
    var q := "\"\"\"";
    var s := q + blanks + body + q;
    assert s[..3] == q;
    assert s[3..] == blanks + (body + q);
    BlankRunOf(blanks, body + q);
    assert s[3 + |blanks|] == '\n';
    assert StartMatchEnd(s, 0) == Some(3 + |blanks| + 1);
    assert s[3 + |blanks|..|s| - 3] == body;
  }

  // ---------------------------------------------------------------------------
  // replaceBlankLines

  /** `t` starts with a match of `\n[\t ]+(?=\n)`: a line holding only blanks. */
  predicate StartsBlankLine(t: string)
  {
    |t| > 0 && t[0] == '\n' && 1 < 1 + BlankRun(t[1..]) < |t| && t[1 + BlankRun(t[1..])] == '\n'
  }

  /** replaceBlankLines: every line holding only blanks is emptied. */
  function BlankLinesReplaced(t: string): (r: string)
    decreases |t|
  {
    if t == [] then []
    else if StartsBlankLine(t) then "\n" + BlankLinesReplaced(t[1 + BlankRun(t[1..])..])
    else [t[0]] + BlankLinesReplaced(t[1..])
  }

  /** replaceBlankLines: the find/appendReplacement loop, one position at a time. */
  method ReplaceBlankLines(s: string) returns (r: string)
    ensures r == BlankLinesReplaced(s)
  {
    var sb := "";
    var i := 0;
    while i < |s|
      invariant i <= |s|
      invariant sb + BlankLinesReplaced(s[i..]) == BlankLinesReplaced(s)
      decreases |s| - i
    {
      if StartsBlankLine(s[i..]) {
        var k := 1 + BlankRun(s[i + 1..]);
        BlankLineAt(s, i, k);
        AppendAssoc(sb, "\n", BlankLinesReplaced(s[i + k..]));
        sb := sb + "\n";
        i := i + k;
      } else {
        CopiedAt(s, i);
        AppendAssoc(sb, [s[i]], BlankLinesReplaced(s[i + 1..]));
        sb := sb + [s[i]];
        i := i + 1;
      }
    }
    assert sb + [] == sb;
    r := sb;
  }

  lemma AppendAssoc(a: string, b: string, c: string)
    ensures a + (b + c) == (a + b) + c
  {
  }

  /** A line of blanks at `i` is replaced by its line feed, and the scan goes on at the next line feed. */
  lemma BlankLineAt(s: string, i: nat, k: nat)
    requires i < |s| && StartsBlankLine(s[i..]) && k == 1 + BlankRun(s[i + 1..])
    ensures i + k < |s|
    ensures BlankLinesReplaced(s[i..]) == "\n" + BlankLinesReplaced(s[i + k..])
  {
    assert s[i..][1..] == s[i + 1..];
    assert s[i..][k..] == s[i + k..];
  }

  lemma CopiedAt(s: string, i: nat)
    requires i < |s| && !StartsBlankLine(s[i..])
    ensures BlankLinesReplaced(s[i..]) == [s[i]] + BlankLinesReplaced(s[i + 1..])
  {
    assert s[i..][1..] == s[i + 1..];
  }

  /** No position of `u` starts a line holding only blanks. */
  predicate NoBlankLine(u: string)
  {
    forall j :: 0 <= j < |u| ==> !StartsBlankLine(u[j..])
  }

  /** The first character always survives. */
  lemma BlankLinesFirst(t: string)
    requires t != []
    ensures BlankLinesReplaced(t) != [] && BlankLinesReplaced(t)[0] == t[0]
  {
  }

  /** A string of blanks is left alone. */
  lemma {:induction false} BlankLinesOfBlanks(t: string)
    requires BlankRun(t) == |t|
    ensures BlankLinesReplaced(t) == t
    decreases |t|
  {
    if t != [] {
      BlankLinesOfBlanks(t[1..]);
    }
  }

  /** The blanks at the front and the character after them survive. */
  lemma {:induction false} BlankLinesBlankPrefix(v: string)
    requires BlankRun(v) < |v|
    ensures BlankRun(v) < |BlankLinesReplaced(v)|
    ensures BlankLinesReplaced(v)[..BlankRun(v)] == v[..BlankRun(v)]
    ensures BlankLinesReplaced(v)[BlankRun(v)] == v[BlankRun(v)]
    decreases |v|
  {
    var b := BlankRun(v);
    if IsBlank(v[0]) {
      var w := v[1..];
      BlankLinesBlankPrefix(w);
      var u := BlankLinesReplaced(w);
      BlankLinesCopy(v);
      assert BlankRun(w) == b - 1;
      assert BlankLinesReplaced(v) == [v[0]] + u;
      assert v[..b] == [v[0]] + w[..b - 1];
      assert ([v[0]] + u)[..b] == [v[0]] + u[..b - 1];
    } else {
      BlankLinesFirst(v);
    }
  }

  /** A character that does not start a blank line is copied. */
  lemma BlankLinesCopy(t: string)
    requires t != [] && !StartsBlankLine(t)
    ensures BlankLinesReplaced(t) == [t[0]] + BlankLinesReplaced(t[1..])
  {
  }

  /** Putting one character in front of a string shifts where its lines start. */
  lemma NoBlankLineCons(c: char, u: string)
    requires NoBlankLine(u) && !StartsBlankLine([c] + u)
    ensures NoBlankLine([c] + u)
  {
    var w := [c] + u;
    forall j | 0 < j < |w|
      ensures !StartsBlankLine(w[j..])
    {
      assert w[j..] == u[j - 1..];
    }
  }

  /** After the replacement no line holds only blanks. */
  lemma {:induction false} BlankLinesGone(t: string)
    ensures NoBlankLine(BlankLinesReplaced(t))
    decreases |t|
  {
    if t != [] {
      if StartsBlankLine(t) {
        var k := 1 + BlankRun(t[1..]);
        var u := BlankLinesReplaced(t[k..]);
        BlankLinesGone(t[k..]);
        BlankLinesFirst(t[k..]);
        assert ("\n" + u)[1..] == u;
        NoBlankLineCons('\n', u);
      } else {
        var u := BlankLinesReplaced(t[1..]);
        BlankLinesGone(t[1..]);
        var v := t[1..];
        if t[0] == '\n' && BlankRun(v) > 0 {
          assert ([t[0]] + u)[1..] == u;
          if BlankRun(v) == |v| {
            BlankLinesOfBlanks(v);
          } else {
            BlankLinesBlankPrefix(v);
            BlankRunAllBlank(v);
            BlankRunOf(u[..BlankRun(v)], u[BlankRun(v)..]);
            assert u == u[..BlankRun(v)] + u[BlankRun(v)..];
          }
        }
        NoBlankLineCons(t[0], u);
      }
    }
  }

  /** A string without such a line is left alone, so replacing twice is replacing once. */
  lemma {:induction false} BlankLinesKept(t: string)
    requires NoBlankLine(t)
    ensures BlankLinesReplaced(t) == t
    decreases |t|
  {
    if t != [] {
      assert t[0..] == t;
      forall j | 0 <= j < |t| - 1
        ensures !StartsBlankLine(t[1..][j..])
      {
        assert t[1..][j..] == t[j + 1..];
      }
      BlankLinesKept(t[1..]);
    }
  }

  lemma BlankLinesIdempotent(t: string)
    ensures BlankLinesReplaced(BlankLinesReplaced(t)) == BlankLinesReplaced(t)
  {
    BlankLinesGone(t);
    BlankLinesKept(BlankLinesReplaced(t));
  }

  /** The characters of `t` other than blanks, in order. */
  function NonBlanks(t: string): string
  {
    if t == [] then [] else (if IsBlank(t[0]) then [] else [t[0]]) + NonBlanks(t[1..])
  }

  lemma {:induction false} NonBlanksSkip(t: string, k: nat)
    requires k <= |t| && forall j :: 0 <= j < k ==> IsBlank(t[j])
    ensures NonBlanks(t) == NonBlanks(t[k..])
    decreases k
  {
    if k > 0 {
      NonBlanksSkip(t[1..], k - 1);
      assert t[1..][k - 1..] == t[k..];
    }
  }

  /** Only blanks are removed: every other character survives, in order. */
  lemma {:induction false} BlankLinesKeepNonBlanks(t: string)
    ensures NonBlanks(BlankLinesReplaced(t)) == NonBlanks(t)
    decreases |t|
  {
    if t != [] {
      if StartsBlankLine(t) {
        var k := 1 + BlankRun(t[1..]);
        BlankLinesKeepNonBlanks(t[k..]);
        BlankRunAllBlank(t[1..]);
        NonBlanksSkip(t[1..], k - 1);
        assert t[1..][k - 1..] == t[k..];
        assert ("\n" + BlankLinesReplaced(t[k..]))[1..] == BlankLinesReplaced(t[k..]);
      } else {
        BlankLinesKeepNonBlanks(t[1..]);
        assert ([t[0]] + BlankLinesReplaced(t[1..]))[1..] == BlankLinesReplaced(t[1..]);
      }
    }
  }

  // ---------------------------------------------------------------------------
  // removeIndentation

  /** `s` holds (at least) `k` spaces from position `j` on. */
  predicate LeadingSpaces(s: string, j: nat, k: nat)
    requires j <= |s|
    ensures LeadingSpaces(s, j, k) ==> j + k <= |s|
    decreases k
  {
    k == 0 || (j < |s| && s[j] == ' ' && LeadingSpaces(s, j + 1, k - 1))
  }

  /** `s` holds a newline at `j` followed by `indent` spaces. */
  predicate NewlineIndent(s: string, j: nat, indent: nat)
  {
    j < |s| && s[j] == '\n' && LeadingSpaces(s, j + 1, indent)
  }

  lemma {:induction false} SpacesLead(n: nat, rest: string)
    ensures LeadingSpaces(Spaces(n) + rest, 0, n)
  {
    SpacesLeadFrom(Spaces(n) + rest, 0, n);
  }

  lemma {:induction false} SpacesLeadFrom(s: string, j: nat, k: nat)
    requires j + k <= |s| && forall l :: j <= l < j + k ==> s[l] == ' '
    ensures LeadingSpaces(s, j, k)
    decreases k
  {
    if k > 0 {
      SpacesLeadFrom(s, j + 1, k - 1);
    }
  }

  /**
   * A match of `(\\)?(\\)?\n` plus the indentation at position `i` of `s`:
   * how many backslashes it takes, trying two before one before none.
   */
  function SlashMatch(s: string, i: nat, indent: nat): (r: Option<nat>)
    ensures r.Some? ==> r.value <= 2 && i + r.value + 1 + indent <= |s|
  {
    if i + 1 < |s| && s[i] == '\\' && s[i + 1] == '\\' && NewlineIndent(s, i + 2, indent) then Some(2)
    else if i < |s| && s[i] == '\\' && NewlineIndent(s, i + 1, indent) then Some(1)
    else if NewlineIndent(s, i, indent) then Some(0)
    else None
  }

  /**
   * removeIndentation from position `i` on, with the builder `sb` and the
   * line breaks recorded so far: a match without a backslash becomes a
   * newline; one with a backslash disappears and records a line break at the
   * builder's length less one; any other character is copied.
   */
  function Unindent(s: string, i: nat, indent: nat, sb: string, breaks: seq<int>): (string, seq<int>)
    requires i <= |s|
    decreases |s| - i
  {
    if i == |s| then (sb, breaks)
    else match SlashMatch(s, i, indent)
      case None => Unindent(s, i + 1, indent, sb + [s[i]], breaks)
      case Some(b) =>
        if b == 0 then Unindent(s, i + 1 + indent, indent, sb + "\n", breaks)
        else Unindent(s, i + b + 1 + indent, indent, sb, breaks + [|sb| - 1])
  }

  /** removeIndentation: the find/appendReplacement loop, one position at a time. */
  method RemoveIndentation(s: string, indent: nat) returns (r: string, lineBreaks: seq<int>)
    ensures (r, lineBreaks) == Unindent(s, 0, indent, "", [])
  {
    var sb := "";
    lineBreaks := [];
    var i := 0;
    while i < |s|
      invariant i <= |s|
      invariant Unindent(s, i, indent, sb, lineBreaks) == Unindent(s, 0, indent, "", [])
      decreases |s| - i
    {
      var m := SlashMatch(s, i, indent);
      if m.None? {
        sb := sb + [s[i]];
        i := i + 1;
      } else if m.value == 0 {
        sb := sb + "\n";
        i := i + 1 + indent;
      } else {
        lineBreaks := lineBreaks + [|sb| - 1];
        i := i + m.value + 1 + indent;
      }
    }
    r := sb;
  }

  /** Reading from position `k + j` of `s` is reading from `j` of the suffix that starts at `k`. */
  lemma {:induction false} LeadingSpacesShift(s: string, k: nat, u: string, j: nat, n: nat)
    requires k <= |s| && s[k..] == u && j <= |u|
    ensures LeadingSpaces(s, k + j, n) == LeadingSpaces(u, j, n)
    decreases n
  {
    if n > 0 && j < |u| {
      assert s[k + j] == u[j];
      LeadingSpacesShift(s, k, u, j + 1, n - 1);
    }
  }

  lemma SlashMatchShift(s: string, k: nat, u: string, j: nat, indent: nat)
    requires k <= |s| && s[k..] == u && j <= |u|
    ensures SlashMatch(s, k + j, indent) == SlashMatch(u, j, indent)
  {
    if j < |u| {
      assert s[k + j] == u[j];
      LeadingSpacesShift(s, k, u, j + 1, indent);
    }
    if j + 1 < |u| {
      assert s[k + j + 1] == u[j + 1];
      LeadingSpacesShift(s, k, u, j + 2, indent);
    }
    if j + 2 < |u| {
      assert s[k + j + 2] == u[j + 2];
      LeadingSpacesShift(s, k, u, j + 3, indent);
    }
  }

  lemma {:induction false} UnindentShift(s: string, k: nat, u: string, j: nat, indent: nat, sb: string, breaks: seq<int>)
    requires k <= |s| && s[k..] == u && j <= |u|
    ensures Unindent(s, k + j, indent, sb, breaks) == Unindent(u, j, indent, sb, breaks)
    decreases |u| - j
  {
    if j < |u| {
      SlashMatchShift(s, k, u, j, indent);
      assert s[k + j] == u[j];
      match SlashMatch(u, j, indent)
      case None =>
        UnindentShift(s, k, u, j + 1, indent, sb + [u[j]], breaks);
      case Some(b) =>
        if b == 0 {
          UnindentShift(s, k, u, j + 1 + indent, indent, sb + "\n", breaks);
        } else {
          UnindentShift(s, k, u, j + b + 1 + indent, indent, sb, breaks + [|sb| - 1]);
        }
    }
  }

  /** Removing the indentation from position `k` is removing it from the suffix that starts there. */
  lemma UnindentSuffix(s: string, k: nat, u: string, indent: nat, sb: string, breaks: seq<int>)
    requires k <= |s| && s[k..] == u
    ensures Unindent(s, k, indent, sb, breaks) == Unindent(u, 0, indent, sb, breaks)
  {
    UnindentShift(s, k, u, 0, indent, sb, breaks);
  }

  /** No match starts inside a line without a backslash. */
  lemma {:induction false} UnindentPlain(line: string, rest: string, indent: nat, sb: string, breaks: seq<int>)
    requires '\n' !in line && '\\' !in line
    ensures Unindent(line + rest, 0, indent, sb, breaks) == Unindent(rest, 0, indent, sb + line, breaks)
    decreases |line|
  {
    if line == [] {
      assert line + rest == rest;
      assert sb + line == sb;
    } else {
      var t := line + rest;
      assert t[0] == line[0];
      assert line[0] in line;
      assert SlashMatch(t, 0, indent).None?;
      UnindentSuffix(t, 1, line[1..] + rest, indent, sb + [line[0]], breaks);
      UnindentPlain(line[1..], rest, indent, sb + [line[0]], breaks);
      assert sb + [line[0]] + line[1..] == sb + line;
    }
  }

  /** The lines, each after a newline. */
  function NewlineJoined(ls: seq<string>): (r: string)
    ensures ls != [] ==> r != [] && r[0] == '\n'
  {
    if ls == [] then "" else "\n" + ls[0] + NewlineJoined(ls[1..])
  }

  /** The lines, each indented by `n` spaces. */
  function Indent(ls: seq<string>, n: nat): (r: seq<string>)
    ensures |r| == |ls| && forall k :: 0 <= k < |ls| ==> r[k] == Spaces(n) + ls[k]
  {
    seq(|ls|, k requires 0 <= k < |ls| => Spaces(n) + ls[k])
  }

  /** Lines without a line feed or a backslash. */
  predicate PlainLines(ls: seq<string>)
  {
    forall k :: 0 <= k < |ls| ==> '\n' !in ls[k] && '\\' !in ls[k]
  }

  /** A newline followed by the indentation loses the indentation. */
  lemma UnindentNewline(line: string, rest: string, n: nat, sb: string, breaks: seq<int>)
    requires '\n' !in line && '\\' !in line
    ensures Unindent("\n" + (Spaces(n) + line) + rest, 0, n, sb, breaks) == Unindent(rest, 0, n, sb + "\n" + line, breaks)
  {
    var t := "\n" + (Spaces(n) + line) + rest;
    SpacesLead(n, line + rest);
    LeadingSpacesShift(t, 1, Spaces(n) + (line + rest), 0, n);
    assert SlashMatch(t, 0, n) == Some(0);
    UnindentSuffix(t, 1 + n, line + rest, n, sb + "\n", breaks);
    UnindentPlain(line, rest, n, sb + "\n", breaks);
  }

  /** The layout of indented lines: the first one, then the others. */
  lemma IndentedLayout(ls: seq<string>, n: nat, rest: string)
    requires ls != []
    ensures NewlineJoined(Indent(ls, n)) + rest == "\n" + (Spaces(n) + ls[0]) + (NewlineJoined(Indent(ls[1..], n)) + rest)
  {
    assert Indent(ls, n)[1..] == Indent(ls[1..], n);
  }

  /** Removing the indentation of indented lines gives the lines back, with no line break recorded. */
  lemma {:induction false} UnindentLines(ls: seq<string>, n: nat, rest: string, sb: string, breaks: seq<int>)
    requires PlainLines(ls)
    ensures Unindent(NewlineJoined(Indent(ls, n)) + rest, 0, n, sb, breaks) == Unindent(rest, 0, n, sb + NewlineJoined(ls), breaks)
    decreases |ls|
  {
    if ls == [] {
      assert NewlineJoined(Indent(ls, n)) + rest == rest;
      assert sb + NewlineJoined(ls) == sb;
    } else {
      var tail := NewlineJoined(Indent(ls[1..], n)) + rest;
      IndentedLayout(ls, n, rest);
      UnindentNewline(ls[0], tail, n, sb, breaks);
      var sb' := sb + "\n" + ls[0];
      PlainLinesTail(ls);
      UnindentLines(ls[1..], n, rest, sb', breaks);
      NewlineJoinedAfter(sb, ls);
    }
  }

  lemma PlainLinesTail(ls: seq<string>)
    requires ls != [] && PlainLines(ls)
    ensures PlainLines(ls[1..])
  {
    forall k | 0 <= k < |ls| - 1
      ensures '\n' !in ls[1..][k] && '\\' !in ls[1..][k]
    {
      assert ls[1..][k] == ls[k + 1];
    }
  }

  lemma NewlineJoinedAfter(sb: string, ls: seq<string>)
    requires ls != []
    ensures sb + "\n" + ls[0] + NewlineJoined(ls[1..]) == sb + NewlineJoined(ls)
  {
  }

  /**
   * A line ending in a backslash is joined to the next one, whose indentation
   * goes too, and the join is recorded just before the builder's end.
   */
  lemma LineContinuation(line: string, rest: string, n: nat, sb: string, breaks: seq<int>)
    requires '\n' !in line && '\\' !in line
    ensures Unindent(line + "\\\n" + Spaces(n) + rest, 0, n, sb, breaks) == Unindent(rest, 0, n, sb + line, breaks + [|sb + line| - 1])
  {
    var t := ['\\', '\n'] + (Spaces(n) + rest);
    assert line + "\\\n" + Spaces(n) + rest == line + t;
    UnindentPlain(line, t, n, sb, breaks);
    SpacesLead(n, rest);
    LeadingSpacesShift(t, 2, Spaces(n) + rest, 0, n);
    assert SlashMatch(t, 0, n) == Some(1);
    UnindentSuffix(t, 2 + n, rest, n, sb + line, breaks + [|sb + line| - 1]);
  }

  // ---------------------------------------------------------------------------
  // the indentation

  /**
   * The loop over the matches of `\n([\t ]*)([^\n]*)` from the start of `t`:
   * a line counts for the indentation when it is the last one or holds more
   * than blanks, and `empty` says whether the latest line held only blanks.
   */
  function IndentFrom(t: string, indent: nat, empty: bool): (nat, bool)
    decreases |t|
  {
    if t == [] then (indent, empty)
    else if t[0] != '\n' then IndentFrom(t[1..], indent, empty)
    else
      var len := LineLength(t[1..]);
      var line := t[1..1 + len];
      IndentFrom(t[1 + len..], LineIndent(line, 1 + len == |t|, indent), OnlyBlanks(line))
  }

  /** One match of the loop: the line after the line feed at the front of `t`. */
  lemma IndentFromStep(t: string, len: nat, indent: nat, empty: bool)
    requires t != [] && t[0] == '\n' && len == LineLength(t[1..])
    ensures IndentFrom(t, indent, empty) == IndentFrom(t[1 + len..], LineIndent(t[1..1 + len], 1 + len == |t|, indent), OnlyBlanks(t[1..1 + len]))
  {
  }

  /** The group of the line after its leading blanks is empty. */
  predicate OnlyBlanks(line: string)
  {
    BlankRun(line) == |line|
  }

  /** The indentation after one more line. */
  function LineIndent(line: string, last: bool, indent: nat): nat
  {
    if last || !OnlyBlanks(line) then Min(BlankRun(line), indent) else indent
  }

  function Min(a: nat, b: nat): nat { if a < b then a else b }

  /** The indentation loop of parseTextBlock. */
  method ComputeIndent(s: string) returns (indent: nat, empty: bool)
    ensures (indent, empty) == IndentFrom(s, INT_MAX, false)
  {
    indent := INT_MAX;
    empty := false;
    var i := 0;
    while i < |s|
      invariant i <= |s|
      invariant IndentFrom(s[i..], indent, empty) == IndentFrom(s, INT_MAX, false)
      decreases |s| - i
    {
      if s[i] != '\n' {
        IndentFromSkip(s, i, indent, empty);
        i := i + 1;
      } else {
        var len := LineLength(s[i + 1..]);
        var line := s[i + 1..i + 1 + len];
        var last := i + 1 + len == |s|;
        IndentFromAt(s, i, len, indent, empty);
        empty := OnlyBlanks(line);
        indent := LineIndent(line, last, indent);
        i := i + 1 + len;
      }
    }
  }

  lemma IndentFromSkip(s: string, i: nat, indent: nat, empty: bool)
    requires i < |s| && s[i] != '\n'
    ensures IndentFrom(s[i..], indent, empty) == IndentFrom(s[i + 1..], indent, empty)
  {
    assert s[i..][1..] == s[i + 1..];
  }

  lemma IndentFromAt(s: string, i: nat, len: nat, indent: nat, empty: bool)
    requires i < |s| && s[i] == '\n' && len == LineLength(s[i + 1..])
    ensures i + 1 + len <= |s|
    ensures IndentFrom(s[i..], indent, empty)
      == IndentFrom(s[i + 1 + len..], LineIndent(s[i + 1..i + 1 + len], i + 1 + len == |s|, indent), OnlyBlanks(s[i + 1..i + 1 + len]))
  {
    var t := s[i..];
    assert t[1..] == s[i + 1..];
    IndentFromStep(t, len, indent, empty);
    assert t[1..1 + len] == s[i + 1..i + 1 + len];
    assert t[1 + len..] == s[i + 1 + len..];
  }

  /** The same loop over a list of lines. */
  function LinesIndent(ls: seq<string>, indent: nat, empty: bool): (nat, bool)
    decreases |ls|
  {
    if ls == [] then (indent, empty)
    else LinesIndent(ls[1..], LineIndent(ls[0], |ls| == 1, indent), OnlyBlanks(ls[0]))
  }

  /** A line with a line feed after it has its own length as line length. */
  lemma {:induction false} LineLengthOf(line: string, rest: string)
    requires '\n' !in line && (rest == [] || rest[0] == '\n')
    ensures LineLength(line + rest) == |line|
    decreases |line|
  {
    if line == [] {
      assert line + rest == rest;
    } else {
      assert line[0] in line;
      assert (line + rest)[1..] == line[1..] + rest;
      LineLengthOf(line[1..], rest);
    }
  }

  /** The scan over the characters meets the lines one by one. */
  lemma {:induction false} IndentOfLines(ls: seq<string>, indent: nat, empty: bool)
    requires forall k :: 0 <= k < |ls| ==> '\n' !in ls[k]
    ensures IndentFrom(NewlineJoined(ls), indent, empty) == LinesIndent(ls, indent, empty)
    decreases |ls|
  {
    if ls != [] {
      var t := NewlineJoined(ls);
      var rest := NewlineJoined(ls[1..]);
      assert t[1..] == ls[0] + rest;
      LineLengthOf(ls[0], rest);
      assert t[1..1 + |ls[0]|] == ls[0];
      assert t[1 + |ls[0]|..] == rest;
      assert (1 + |ls[0]| == |t|) == (|ls| == 1);
      IndentFromStep(t, |ls[0]|, indent, empty);
      IndentOfLines(ls[1..], LineIndent(ls[0], |ls| == 1, indent), OnlyBlanks(ls[0]));
    }
  }

  /** Line `k` counts for the indentation: it is the last, or it holds more than blanks. */
  predicate Counts(ls: seq<string>, k: nat)
    requires k < |ls|
  {
    k == |ls| - 1 || BlankRun(ls[k]) < |ls[k]|
  }

  /** Line `k` counts and its leading blanks are `indent` long. */
  predicate SetsIndent(ls: seq<string>, k: nat, indent: nat)
  {
    k < |ls| && Counts(ls, k) && BlankRun(ls[k]) == indent
  }

  /**
   * The indentation is the least number of leading blanks over the lines
   * that count (or the starting value, if that is smaller), and `empty`
   * says whether the last line holds only blanks.
   */
  lemma {:induction false} IndentIsLeast(ls: seq<string>, indent: nat, empty: bool)
    ensures LinesIndent(ls, indent, empty).0 <= indent
    ensures forall k :: 0 <= k < |ls| && Counts(ls, k) ==> LinesIndent(ls, indent, empty).0 <= BlankRun(ls[k])
    ensures LinesIndent(ls, indent, empty).0 == indent || exists k :: SetsIndent(ls, k, LinesIndent(ls, indent, empty).0)
    ensures LinesIndent(ls, indent, empty).1 == if ls == [] then empty else BlankRun(ls[|ls| - 1]) == |ls[|ls| - 1]|
    decreases |ls|
  {
    if ls != [] {
      var e := OnlyBlanks(ls[0]);
      var next := LineIndent(ls[0], |ls| == 1, indent);
      var r := LinesIndent(ls, indent, empty);
      assert r == LinesIndent(ls[1..], next, e);
      IndentIsLeast(ls[1..], next, e);
      forall k | 0 <= k < |ls| && Counts(ls, k)
        ensures r.0 <= BlankRun(ls[k])
      {
        if k > 0 {
          assert ls[1..][k - 1] == ls[k];
          assert Counts(ls[1..], k - 1);
        }
      }
      if r.0 != indent {
        if r.0 == next {
          assert SetsIndent(ls, 0, r.0);
        } else {
          var k: nat :| SetsIndent(ls[1..], k, r.0);
          assert ls[1..][k] == ls[k + 1];
          assert SetsIndent(ls, k + 1, r.0);
        }
      }
    }
  }

  // ---------------------------------------------------------------------------
  // parseTextBlock

  /** The substring(1) of the string without indentation, then the escapes. */
  function Finish(removed: string, formatting: TextBlockFormatting): Try<TextBlock>
  {
    if removed == [] then Failure(IndexOutOfBounds)
    else match Translate(removed[1..])
      case Failure(e) => Failure(e)
      case Success(content) => Success(TextBlock(content, formatting))
  }

  /**
   * parseTextBlock: a string ending in a line feed opts out of stripping;
   * otherwise the least indentation is removed, and the closing quotes
   * trail when the last line holds more than blanks. An indentation left at
   * Integer.MAX_VALUE (no line feed at all) makes " ".repeat run out of memory.
   */
  function TextBlockOf(src: string): Try<TextBlock>
  {
    match StripQuotes(src)
    case Failure(e) => Failure(e)
    case Success(string1) =>
      var s := BlankLinesReplaced(string1);
      if EndsWith(s, "\n") then Finish(s, TextBlockFormatting([], true, false))
      else
        var (indent, empty) := IndentFrom(s, INT_MAX, false);
        if indent >= INT_MAX then Failure(RuntimeError("OutOfMemoryError"))
        else
          var (removed, breaks) := Unindent(s, 0, indent, "", []);
          Finish(removed, TextBlockFormatting(breaks, false, !empty))
  }

  /** parseTextBlock: the steps in order, each a loop of its own. */
  method ParseTextBlock(src: string) returns (r: Try<TextBlock>)
    ensures r == TextBlockOf(src)
  {
    var stripped := StripQuotes(src);
    if stripped.Failure? {
      return Failure(stripped.exception);
    }
    var s := ReplaceBlankLines(stripped.value);
    var formatting: TextBlockFormatting;
    var removed: string;
    if EndsWith(s, "\n") {
      formatting := TextBlockFormatting([], true, false);
      removed := s;
    } else {
      var indent, empty := ComputeIndent(s);
      if indent >= INT_MAX {
        return Failure(RuntimeError("OutOfMemoryError"));
      }
      var breaks;
      removed, breaks := RemoveIndentation(s, indent);
      formatting := TextBlockFormatting(breaks, false, !empty);
    }
    if removed == [] {
      return Failure(IndexOutOfBounds);
    }
    var content := TranslateEscapeInTextBlock(removed[1..]);
    match content
    case Failure(e) => return Failure(e);
    case Success(c) => return Success(TextBlock(c, formatting));
  }

  // ---------------------------------------------------------------------------
  // a text block written the usual way

  /** Leading spaces add to the blank run. */
  lemma {:induction false} BlankRunSpaces(n: nat, line: string)
    ensures BlankRun(Spaces(n) + line) == n + BlankRun(line)
    decreases n
  {
    if n == 0 {
      assert Spaces(n) + line == line;
    } else {
      BlankRunSpaces(n - 1, line);
      assert Spaces(n) + line == [' '] + (Spaces(n - 1) + line);
    }
  }

  /** What follows a line holding more than blanks does not change its blank run. */
  lemma {:induction false} BlankRunPrefix(line: string, rest: string)
    requires BlankRun(line) < |line|
    ensures BlankRun(line + rest) == BlankRun(line)
    decreases |line|
  {
    if IsBlank(line[0]) {
      BlankRunPrefix(line[1..], rest);
      assert (line + rest)[1..] == line[1..] + rest;
    }
  }

  /** Characters that are not line feeds are copied. */
  lemma {:induction false} BlankLinesCopyPlain(x: string, y: string)
    requires '\n' !in x
    ensures BlankLinesReplaced(x + y) == x + BlankLinesReplaced(y)
    decreases |x|
  {
    if x == [] {
      assert x + y == y;
    } else {
      assert x[0] in x;
      var t := x + y;
      BlankLinesCopy(t);
      assert t[1..] == x[1..] + y;
      BlankLinesCopyPlain(x[1..], y);
      assert [x[0]] + (x[1..] + BlankLinesReplaced(y)) == x + BlankLinesReplaced(y);
    }
  }

  /** A line holding more than blanks, or the last line, is copied with its line feed. */
  lemma BlankLinesLine(line: string, rest: string)
    requires '\n' !in line && (!OnlyBlanks(line) || rest == [])
    ensures BlankLinesReplaced("\n" + line + rest) == "\n" + line + BlankLinesReplaced(rest)
  {
    var t := "\n" + line + rest;
    assert t[1..] == line + rest;
    if !OnlyBlanks(line) {
      BlankRunPrefix(line, rest);
      assert t[1 + BlankRun(line)] == line[BlankRun(line)];
    } else {
      assert line + rest == line;
    }
    BlankLinesCopy(t);
    BlankLinesCopyPlain(line, rest);
  }

  /** Lines of which only the last may hold only blanks are left alone. */
  lemma {:induction false} BlankLinesOfLines(ls: seq<string>)
    requires forall k :: 0 <= k < |ls| ==> '\n' !in ls[k]
    requires forall k :: 0 <= k < |ls| - 1 ==> !OnlyBlanks(ls[k])
    ensures BlankLinesReplaced(NewlineJoined(ls)) == NewlineJoined(ls)
    decreases |ls|
  {
    if ls != [] {
      var rest := NewlineJoined(ls[1..]);
      assert |ls| == 1 ==> rest == [];
      BlankLinesLine(ls[0], rest);
      forall k | 0 <= k < |ls| - 1
        ensures '\n' !in ls[1..][k]
        ensures k < |ls| - 2 ==> !OnlyBlanks(ls[1..][k])
      {
        assert ls[1..][k] == ls[k + 1];
      }
      BlankLinesOfLines(ls[1..]);
    }
  }

  /** Lines after line feeds are the lines joined by line feeds, after one. */
  lemma {:induction false} NewlineJoinedJoin(ls: seq<string>)
    requires ls != []
    ensures NewlineJoined(ls) == "\n" + Join(ls, "\n")
    decreases |ls|
  {
    if |ls| > 1 {
      NewlineJoinedJoin(ls[1..]);
      JoinCons(ls[0], ls[1..], "\n");
      assert [ls[0]] + ls[1..] == ls;
    }
  }

  lemma {:induction false} NewlineJoinedAppend(a: seq<string>, b: seq<string>)
    ensures NewlineJoined(a + b) == NewlineJoined(a) + NewlineJoined(b)
    decreases |a|
  {
    if a == [] {
      assert a + b == b;
    } else {
      assert (a + b)[1..] == a[1..] + b;
      NewlineJoinedAppend(a[1..], b);
    }
  }

  /** The lines of a text block whose closing delimiter stands on a line of its own. */
  predicate UsualLines(ls: seq<string>, n: nat, k0: nat)
  {
    ls != [] && PlainLines(ls) && (forall k :: 0 <= k < |ls| ==> !OnlyBlanks(ls[k])) && k0 < |ls| && BlankRun(ls[k0]) == 0
  }

  /** The stripped string of such a text block has no line of blanks to replace. */
  lemma UsualBlankLines(ls: seq<string>, n: nat, k0: nat)
    requires UsualLines(ls, n, k0)
    ensures BlankLinesReplaced(NewlineJoined(Indent(ls + [""], n))) == NewlineJoined(Indent(ls + [""], n))
  {
    var ils := Indent(ls + [""], n);
    forall k | 0 <= k < |ils|
      ensures '\n' !in ils[k]
      ensures k < |ils| - 1 ==> !OnlyBlanks(ils[k])
    {
      var l := (ls + [""])[k];
      assert k < |ls| ==> l == ls[k];
      assert '\n' !in Spaces(n);
      assert ils[k] == Spaces(n) + l;
      BlankRunSpaces(n, l);
    }
    BlankLinesOfLines(ils);
  }

  lemma IndentedLineFacts(ls: seq<string>, n: nat)
    requires PlainLines(ls)
    ensures forall k :: 0 <= k < |ls| + 1 ==> '\n' !in Indent(ls + [""], n)[k] && BlankRun(Indent(ls + [""], n)[k]) >= n
    ensures OnlyBlanks(Indent(ls + [""], n)[|ls|])
  {
    var ils := Indent(ls + [""], n);
    forall k | 0 <= k < |ils|
      ensures '\n' !in ils[k] && BlankRun(ils[k]) >= n
      ensures k == |ls| ==> OnlyBlanks(ils[k])
    {
      var l := (ls + [""])[k];
      assert k < |ls| ==> l == ls[k];
      assert '\n' !in Spaces(n);
      assert ils[k] == Spaces(n) + l;
      BlankRunSpaces(n, l);
    }
  }

  /** Its indentation is `n` and its last line holds only blanks. */
  lemma UsualIndent(ls: seq<string>, n: nat, k0: nat)
    requires UsualLines(ls, n, k0) && n < INT_MAX
    ensures IndentFrom(NewlineJoined(Indent(ls + [""], n)), INT_MAX, false) == (n, true)
  {
    var ils := Indent(ls + [""], n);
    IndentedLineFacts(ls, n);
    IndentOfLines(ils, INT_MAX, false);
    assert (ls + [""])[k0] == ls[k0];
    assert ils[k0] == Spaces(n) + ls[k0];
    BlankRunSpaces(n, ls[k0]);
    assert !OnlyBlanks(ls[k0]);
    LeastIndentIs(ils, n, k0);
  }

  /**
   * Lines that all lead with at least `n` blanks, one of which counts and
   * leads with exactly `n`, and the last of which holds only blanks.
   */
  lemma LeastIndentIs(ils: seq<string>, n: nat, k0: nat)
    requires n < INT_MAX && k0 < |ils| && OnlyBlanks(ils[|ils| - 1])
    requires forall k :: 0 <= k < |ils| ==> BlankRun(ils[k]) >= n
    requires Counts(ils, k0) && BlankRun(ils[k0]) == n
    ensures LinesIndent(ils, INT_MAX, false) == (n, true)
  {
    IndentIsLeast(ils, INT_MAX, false);
    var r := LinesIndent(ils, INT_MAX, false);
    assert r.0 <= n;
    assert r.0 != INT_MAX;
    var k: nat :| SetsIndent(ils, k, r.0);
    assert r.0 >= n;
    assert r.1;
  }

  /** parseTextBlock when the string does not end in a line feed and every step succeeds. */
  lemma TextBlockOfStripped(src: string, s1: string, indent: nat, empty: bool, removed: string, breaks: seq<int>, content: string)
    requires StripQuotes(src) == Success(s1) && BlankLinesReplaced(s1) == s1 && !EndsWith(s1, "\n")
    requires IndentFrom(s1, INT_MAX, false) == (indent, empty) && indent < INT_MAX
    requires Unindent(s1, 0, indent, "", []) == (removed, breaks) && removed != []
    requires Translate(removed[1..]) == Success(content)
    ensures TextBlockOf(src) == Success(TextBlock(content, TextBlockFormatting(breaks, false, !empty)))
  {
  }

  lemma UsualStrip(ls: seq<string>, n: nat)
    requires ls != []
    ensures StripQuotes("\"\"\"" + NewlineJoined(Indent(ls + [""], n)) + "\"\"\"") == Success(NewlineJoined(Indent(ls + [""], n)))
  {
    StripQuotesOfLiteral([], NewlineJoined(Indent(ls + [""], n)));
    assert "\"\"\"" + [] == "\"\"\"";
  }

  lemma UsualLastLine(ls: seq<string>, n: nat)
    requires ls != [] && n > 0
    ensures !EndsWith(NewlineJoined(Indent(ls + [""], n)), "\n")
  {
    var lines := ls + [""];
    var body := NewlineJoined(Indent(lines, n));
    assert Indent(lines, n)[|ls|] == Spaces(n) + "";
    NewlineJoinedAppend(Indent(lines, n)[..|ls|], [Indent(lines, n)[|ls|]]);
    assert Indent(lines, n)[..|ls|] + [Indent(lines, n)[|ls|]] == Indent(lines, n);
    assert body[|body| - 1] == ' ';
  }

  lemma UsualUnindent(ls: seq<string>, n: nat)
    requires PlainLines(ls)
    ensures Unindent(NewlineJoined(Indent(ls + [""], n)), 0, n, "", []) == (NewlineJoined(ls + [""]), [])
  {
    var lines := ls + [""];
    assert PlainLines(lines) by {
      forall k | 0 <= k < |lines|
        ensures '\n' !in lines[k] && '\\' !in lines[k]
      {
        if k < |ls| {
          assert lines[k] == ls[k];
        }
      }
    }
    UnindentLines(lines, n, "", "", []);
    assert NewlineJoined(Indent(lines, n)) + "" == NewlineJoined(Indent(lines, n));
    assert "" + NewlineJoined(lines) == NewlineJoined(lines);
  }

  lemma UsualContent(ls: seq<string>)
    requires ls != [] && PlainLines(ls)
    ensures NewlineJoined(ls + [""]) != []
    ensures Translate(NewlineJoined(ls + [""])[1..]) == Success(Join(ls, "\n") + "\n")
  {
    var removed := NewlineJoined(ls + [""]);
    NewlineJoinedAppend(ls, [""]);
    NewlineJoinedJoin(ls);
    assert removed[1..] == Join(ls, "\n") + "\n";
    JoinAvoids(ls, "\n", '\\');
    NoBackslashUnchanged(removed[1..], 0);
  }

  /**
   * A text block written the usual way: lines indented by `n` and more, the
   * closing delimiter on a line of its own indented by `n`. The content is
   * the lines without the indentation, each ending in a line feed, and
   * nothing needs recording for the printer.
   */
  lemma UsualTextBlock(ls: seq<string>, n: nat, k0: nat)
    requires UsualLines(ls, n, k0) && 0 < n < INT_MAX
    ensures TextBlockOf("\"\"\"" + NewlineJoined(Indent(ls + [""], n)) + "\"\"\"")
      == Success(TextBlock(Join(ls, "\n") + "\n", TextBlockFormatting([], false, false)))
  {
    var body := NewlineJoined(Indent(ls + [""], n));
    UsualStrip(ls, n);
    UsualBlankLines(ls, n, k0);
    UsualLastLine(ls, n);
    UsualIndent(ls, n, k0);
    UsualUnindent(ls, n);
    UsualContent(ls);
    TextBlockOfStripped("\"\"\"" + body + "\"\"\"", body, n, true, NewlineJoined(ls + [""]), [], Join(ls, "\n") + "\n");
  }
}
