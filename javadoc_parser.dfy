/**
 * Tag extraction from a Javadoc comment: every line is scanned for a block
 * tag at its start (`@name` after the comment opener or a leading asterisk) and for
 * inline tags `{@name value}`; each recognised tag is replaced by `{k}`, k
 * being its index in the list of tags, and every line is written back
 * followed by a line feed.
 */
module JavaDocParser {
  import opened JavaLang

  /** A position in the sources: an index, then begin line and column, end line and column. */
  datatype Source = Source(index: string, beginLine: int, beginPos: int, endLine: int, endPos: int)

  /** A Javadoc tag; `identifier` is the tag name when it is a known one. */
  datatype Tag = Tag(identifier: Option<string>, content: string, source: Source, sourceOfReference: Option<Source>, blockTag: bool)

  datatype JavaDoc = JavaDoc(source: Source, comment: string, tags: seq<Tag>)

  /**
   * JavaDoc.identifier and argumentsAsBlockTag: the known tag names, each
   * with the number of arguments it takes as a block tag.
   */
  type Identifiers = map<string, nat>

  /** subSource: the columns `begin` to `end` on line `line` of the comment. */
  function SubSource(main: Source, line: int, begin: int, end: int): (r: Source)
    ensures r.index == main.index && r.beginLine == r.endLine == main.beginLine + line
    ensures r.beginPos == begin && r.endPos == end
  {
    Source(main.index, main.beginLine + line, begin, main.beginLine + line, end)
  }

  /** The placeholder that replaces tag number `k`. */
  function Placeholder(k: nat): string
  {
    "{" + IntToString(k) + "}"
  }

  // ---------------------------------------------------------------------------
  // character classes and runs

  /** `\p{Alpha}`: an ASCII letter. */
  predicate IsAlpha(c: char)
  {
    'a' <= c <= 'z' || 'A' <= c <= 'Z'
  }

  /** The character classes the patterns repeat: `\s`, `\p{Alpha}` and `[^}]`. */
  datatype CharClass = Space | Alpha | NotBrace

  predicate InClass(c: char, k: CharClass)
  {
    match k
    case Space => IsSpace(c)
    case Alpha => IsAlpha(c)
    case NotBrace => c != '}'
  }

  /** The end of the run of characters of a class that starts at `i`. */
  function Run(s: string, i: nat, k: CharClass): (r: nat)
    requires i <= |s|
    ensures i <= r <= |s|
    decreases |s| - i
  {
    if i < |s| && InClass(s[i], k) then Run(s, i + 1, k) else i
  }

  /** A run holds characters of the class only and stops before one outside it. */
  lemma {:induction false} RunFacts(s: string, i: nat, k: CharClass)
    requires i <= |s|
    ensures forall j :: i <= j < Run(s, i, k) ==> InClass(s[j], k)
    ensures Run(s, i, k) == |s| || !InClass(s[Run(s, i, k)], k)
    decreases |s| - i
  {
    if i < |s| && InClass(s[i], k) {
      RunFacts(s, i + 1, k);
    }
  }

  /** A run ends at the end of the string or at a character outside the class. */
  lemma {:induction false} RunStops(s: string, i: nat, k: CharClass)
    requires i <= |s|
    ensures Run(s, i, k) == |s| || !InClass(s[Run(s, i, k)], k)
    decreases |s| - i
  {
    if i < |s| && InClass(s[i], k) {
      RunStops(s, i + 1, k);
    }
  }

  lemma {:induction false} RunOf(s: string, i: nat, e: nat, k: CharClass)
    requires i <= e <= |s|
    requires forall j :: i <= j < e ==> InClass(s[j], k)
    requires e == |s| || !InClass(s[e], k)
    ensures Run(s, i, k) == e
    decreases e - i
  {
    if i < e {
      RunOf(s, i + 1, e, k);
    }
  }

  /** Characters of `\s` only. */
  predicate Blanks(t: string)
  {
    forall j :: 0 <= j < |t| ==> IsSpace(t[j])
  }

  /** A tag name: one letter or more. */
  predicate Letters(t: string)
  {
    t != [] && forall j :: 0 <= j < |t| ==> IsAlpha(t[j])
  }

  // ---------------------------------------------------------------------------
  // block tags: ^(/\*\*|\s*\*\s*)@(\p{Alpha}+)

  /** Where a block tag's prefix matches: end(1) and end(2). */
  datatype BlockMatch = BlockMatch(prefixEnd: nat, tagEnd: nat)

  /** The end of group 1: the comment opener (a slash and two asterisks), or blanks, a `*` and blanks. */
  function BlockPrefixEnd(line: string): (r: Option<nat>)
    ensures r.Some? ==> 0 < r.value <= |line|
  {
    if |line| >= 3 && line[0] == '/' && line[1] == '*' && line[2] == '*' then Some(3)
    else
      var a := Run(line, 0, Space);
      if a < |line| && line[a] == '*' then Some(Run(line, a + 1, Space)) else None
  }

  /** The block-tag pattern at the start of a line. */
  function BlockTagMatch(line: string): (r: Option<BlockMatch>)
    ensures r.Some? ==> 0 < r.value.prefixEnd && r.value.prefixEnd + 1 < r.value.tagEnd <= |line| && line[r.value.prefixEnd] == '@'
  {
    var e := BlockPrefixEnd(line);
    if e.None? || e.value >= |line| || line[e.value] != '@' then None
    else
      var t := Run(line, e.value + 1, Alpha);
      if t == e.value + 1 then None else Some(BlockMatch(e.value, t))
  }

  /** Once group 1 ends at the `@`, the name is the whole run of letters after it. */
  lemma BlockTagName(prefix: string, name: string, rest: string)
    requires Letters(name) && (rest == [] || !IsAlpha(rest[0]))
    requires BlockPrefixEnd(prefix + "@" + name + rest) == Some(|prefix|)
    ensures BlockTagMatch(prefix + "@" + name + rest) == Some(BlockMatch(|prefix|, |prefix| + 1 + |name|))
  {
    var line := prefix + "@" + name + rest;
    var e := |prefix|;
    assert line[e] == '@';
    forall j | e + 1 <= j < e + 1 + |name|
      ensures InClass(line[j], Alpha)
    {
      assert line[j] == name[j - e - 1];
    }
    if rest != [] {
      assert line[e + 1 + |name|] == rest[0];
    }
    RunOf(line, e + 1, e + 1 + |name|, Alpha);
  }

  /** A block tag after the opening of the comment is recognised, its name running to the last letter. */
  lemma BlockTagAfterOpening(name: string, rest: string)
    requires Letters(name) && (rest == [] || !IsAlpha(rest[0]))
    ensures BlockTagMatch("/**" + "@" + name + rest) == Some(BlockMatch(3, 4 + |name|))
  {
    BlockTagName("/**", name, rest);
  }

  /** Blanks, a `*` and blanks end group 1 when no blank follows them. */
  lemma AsteriskPrefix(a: string, b: string, tail: string)
    requires Blanks(a) && Blanks(b) && tail != [] && !IsSpace(tail[0]) && tail[0] != '*'
    ensures BlockPrefixEnd(a + "*" + b + tail) == Some(|a| + 1 + |b|)
  {
    var line := a + "*" + b + tail;
    var e := |a| + 1 + |b|;
    forall j | 0 <= j < |a|
      ensures InClass(line[j], Space)
    {
      assert line[j] == a[j];
    }
    assert line[|a|] == '*';
    RunOf(line, 0, |a|, Space);
    forall j | |a| + 1 <= j < e
      ensures InClass(line[j], Space)
    {
      assert line[j] == b[j - |a| - 1];
    }
    assert line[e] == tail[0];
    RunOf(line, |a| + 1, e, Space);
  }

  /** So is one after blanks, a `*` and blanks. */
  lemma BlockTagAfterAsterisk(a: string, b: string, name: string, rest: string)
    requires Blanks(a) && Blanks(b) && Letters(name) && (rest == [] || !IsAlpha(rest[0]))
    ensures BlockTagMatch(a + "*" + b + "@" + name + rest) == Some(BlockMatch(|a| + 1 + |b|, |a| + 2 + |b| + |name|))
  {
    var prefix := a + "*" + b;
    var tail := "@" + name + rest;
    assert prefix + "@" + name + rest == a + "*" + b + tail;
    AsteriskPrefix(a, b, tail);
    BlockTagName(prefix, name, rest);
  }

  /**
   * And nothing else is: a match has the opening or blanks-star-blanks before
   * the `@`, and a name of letters that runs to the last letter.
   */
  lemma BlockTagShape(line: string)
    requires BlockTagMatch(line).Some?
    ensures var m := BlockTagMatch(line).value;
      (line[..m.prefixEnd] == "/**" || exists k :: AsteriskAt(line, k, m.prefixEnd)) &&
      Letters(line[m.prefixEnd + 1..m.tagEnd]) && (m.tagEnd == |line| || !IsAlpha(line[m.tagEnd]))
  {
    var m := BlockTagMatch(line).value;
    if !(|line| >= 3 && line[0] == '/' && line[1] == '*' && line[2] == '*') {
      var a := Run(line, 0, Space);
      RunFacts(line, 0, Space);
      RunFacts(line, a + 1, Space);
      assert AsteriskAt(line, a, m.prefixEnd);
    } else {
      assert line[..3] == "/**";
    }
    RunFacts(line, m.prefixEnd + 1, Alpha);
  }

  /** The prefix up to `e` is blanks, a `*` at `k`, and blanks. */
  predicate AsteriskAt(line: string, k: nat, e: nat)
  {
    k < e <= |line| && line[k] == '*' && Blanks(line[..k]) && Blanks(line[k + 1..e])
  }

  /**
   * A block tag's argument: from one past the end of the name up to the next
   * space, or to the end of the line.
   */
  function BlockArgument(line: string, endOfTag: nat): (r: string)
    requires endOfTag + 1 < |line|
    ensures endOfTag + 1 + |r| <= |line|
  {
    var nextSpace := IndexOf(line, ' ', endOfTag + 1);
    if nextSpace == -1 then line[endOfTag + 1..] else line[endOfTag + 1..nextSpace]
  }

  /** The argument holds no space, and a space or the end of the line follows it. */
  lemma BlockArgumentToSpace(line: string, endOfTag: nat)
    requires endOfTag + 1 < |line|
    ensures var r := BlockArgument(line, endOfTag);
      r == line[endOfTag + 1..endOfTag + 1 + |r|] && ' ' !in r &&
      (endOfTag + 1 + |r| == |line| || line[endOfTag + 1 + |r|] == ' ')
  {
    IndexOfFirst(line, ' ', endOfTag + 1);
  }

  /** The line from position `k` on, empty when `k` is past its last character. */
  function RestAfter(line: string, k: nat): (r: string)
    ensures |r| <= |line|
  {
    if k >= |line| then "" else line[k..]
  }

  /** What the block part of a line writes, the tag it makes, and the rest of the line. */
  datatype LineStart = LineStart(text: string, tag: Option<Tag>, rest: string)

  /**
   * A known block tag of line `lineCount`, `count` tags preceding it: it
   * becomes a tag whose content is its argument when the name takes one, and
   * a placeholder followed by a space; the rest of the line starts one past
   * the argument.
   */
  function KnownBlockTag(line: string, m: BlockMatch, arguments: nat, main: Source, lineCount: int, count: nat): LineStart
    requires m.prefixEnd + 1 < m.tagEnd <= |line|
  {
    var endOfTag := m.tagEnd;
    var withArgument := arguments > 0 && endOfTag + 1 < |line|;
    var content := if withArgument then BlockArgument(line, endOfTag) else "";
    var end := if withArgument then endOfTag + 1 + |content| else endOfTag;
    var reference := if withArgument then Some(SubSource(main, lineCount, endOfTag + 2, end)) else None;
    var tag := Tag(Some(line[m.prefixEnd + 1..endOfTag]), content, SubSource(main, lineCount, m.prefixEnd + 1, end), reference, true);
    LineStart(line[..m.prefixEnd] + Placeholder(count) + " ", Some(tag), RestAfter(line, end + 1))
  }

  /**
   * An unknown block tag is written back and makes no tag. As written, group
   * 1 is written a second time in front of it (`asWritten`).
   */
  function UnknownBlockTag(line: string, m: BlockMatch, asWritten: bool): LineStart
    requires m.prefixEnd < m.tagEnd <= |line|
  {
    var written := if asWritten then line[..m.tagEnd] else line[m.prefixEnd..m.tagEnd];
    LineStart(line[..m.prefixEnd] + written, None, RestAfter(line, m.tagEnd))
  }

  /** The block tag of line `lineCount`, when `count` tags precede it. */
  function BlockPart(line: string, m: BlockMatch, ids: Identifiers, main: Source, lineCount: int, count: nat, asWritten: bool): LineStart
    requires m.prefixEnd + 1 < m.tagEnd <= |line|
  {
    var name := line[m.prefixEnd + 1..m.tagEnd];
    if name in ids then KnownBlockTag(line, m, ids[name], main, lineCount, count)
    else UnknownBlockTag(line, m, asWritten)
  }

  /** The block part of any line: a line without a block tag is all rest. */
  function LineStartOf(line: string, ids: Identifiers, main: Source, lineCount: int, count: nat, asWritten: bool): LineStart
  {
    match BlockTagMatch(line)
    case None => LineStart("", None, line)
    case Some(m) => BlockPart(line, m, ids, main, lineCount, count, asWritten)
  }

  /** An unknown block tag is left in place and makes no tag. */
  lemma UnknownBlockTagKept(line: string, m: BlockMatch)
    requires m.prefixEnd < m.tagEnd <= |line|
    ensures UnknownBlockTag(line, m, false).tag == None
    ensures UnknownBlockTag(line, m, false).text + UnknownBlockTag(line, m, false).rest == line
  {
    assert line[..m.prefixEnd] + line[m.prefixEnd..m.tagEnd] + line[m.tagEnd..] == line;
  }

  /** As written, the text before the `@` comes out twice, so the line is not kept when that text is not empty. */
  lemma AsWrittenRepeatsPrefix(line: string, m: BlockMatch)
    requires m.prefixEnd < m.tagEnd <= |line|
    ensures UnknownBlockTag(line, m, true).tag == None
    ensures UnknownBlockTag(line, m, true).text + UnknownBlockTag(line, m, true).rest == line[..m.prefixEnd] + line
    ensures m.prefixEnd > 0 ==> UnknownBlockTag(line, m, true).text + UnknownBlockTag(line, m, true).rest != line
  {
    assert line[..m.tagEnd] + line[m.tagEnd..] == line;
  }

  /**
   * A known block tag with an argument: the line is group 1, the `@`, the
   * name, one character, the argument (free of spaces), then either the end
   * or a space and the rest. The tag spans the name to the end of the
   * argument, and the reference the argument alone.
   */
  lemma KnownBlockTagWithArgument(line: string, m: BlockMatch, arguments: nat, main: Source, lineCount: int, count: nat)
    requires m.prefixEnd + 1 < m.tagEnd && m.tagEnd + 1 < |line| && arguments > 0
    ensures var ls := KnownBlockTag(line, m, arguments, main, lineCount, count);
      ls.tag.Some? && ls.tag.value.identifier == Some(line[m.prefixEnd + 1..m.tagEnd]) && ls.tag.value.blockTag &&
      ls.text == line[..m.prefixEnd] + Placeholder(count) + " " && ' ' !in ls.tag.value.content &&
      line == line[..m.tagEnd + 1] + ls.tag.value.content + (if m.tagEnd + 1 + |ls.tag.value.content| == |line| then "" else " " + ls.rest) &&
      ls.tag.value.source == SubSource(main, lineCount, m.prefixEnd + 1, m.tagEnd + 1 + |ls.tag.value.content|) &&
      ls.tag.value.sourceOfReference == Some(SubSource(main, lineCount, m.tagEnd + 2, m.tagEnd + 1 + |ls.tag.value.content|))
  {
    var content := BlockArgument(line, m.tagEnd);
    BlockArgumentToSpace(line, m.tagEnd);
    var end := m.tagEnd + 1 + |content|;
    if end < |line| {
      assert line == line[..m.tagEnd + 1] + content + ([line[end]] + RestAfter(line, end + 1));
    } else {
      assert line == line[..m.tagEnd + 1] + content;
    }
  }

  /**
   * A known block tag without an argument (the name takes none, or nothing
   * follows it) has empty content and no reference; the one character after
   * the name is skipped.
   */
  lemma KnownBlockTagAlone(line: string, m: BlockMatch, arguments: nat, main: Source, lineCount: int, count: nat)
    requires m.prefixEnd + 1 < m.tagEnd <= |line| && (arguments == 0 || m.tagEnd + 1 >= |line|)
    ensures var ls := KnownBlockTag(line, m, arguments, main, lineCount, count);
      ls.tag.Some? && ls.tag.value.identifier == Some(line[m.prefixEnd + 1..m.tagEnd]) && ls.tag.value.blockTag &&
      ls.text == line[..m.prefixEnd] + Placeholder(count) + " " && ls.tag.value.content == "" &&
      ls.tag.value.sourceOfReference == None && ls.tag.value.source == SubSource(main, lineCount, m.prefixEnd + 1, m.tagEnd) &&
      (if m.tagEnd + 1 < |line| then line == line[..m.tagEnd + 1] + ls.rest else ls.rest == "")
  {
  }

  // ---------------------------------------------------------------------------
  // inline tags: \{@(\p{Alpha}+)\s+([^}]+)}

  /** Where an inline tag matches: start(), end(1), start(2), end(2); end() is one past end(2). */
  datatype InlineMatch = InlineMatch(start: nat, nameEnd: nat, valueStart: nat, valueEnd: nat)

  /**
   * The inline-tag pattern at position `p`: the name runs to the last letter;
   * the blanks after it are taken greedily, giving one back when nothing but
   * blanks stands before the closing brace.
   */
  function InlineAt(s: string, p: nat): (r: Option<InlineMatch>)
    ensures r.Some? ==> r.value.start == p && p + 2 < r.value.nameEnd < r.value.valueStart < r.value.valueEnd < |s|
    ensures r.Some? ==> s[p] == '{' && s[r.value.valueEnd] == '}'
  {
    if p + 1 < |s| && s[p] == '{' && s[p + 1] == '@' then
      var a := Run(s, p + 2, Alpha);
      var w := Run(s, a, Space);
      var e := Run(s, w, NotBrace);
      RunStops(s, w, NotBrace);
      if a == p + 2 || w == a || e == |s| then None
      else if e > w then Some(InlineMatch(p, a, w, e))
      else if w - a >= 2 then Some(InlineMatch(p, a, w - 1, e))
      else None
    else None
  }

  /** Matcher.find from position `p`: the first match starting there or later. */
  function NextInline(s: string, p: nat): (r: Option<InlineMatch>)
    requires p <= |s|
    ensures r.Some? ==> p <= r.value.start && r.value.start + 2 < r.value.nameEnd < r.value.valueStart < r.value.valueEnd < |s|
    decreases |s| - p
  {
    if p == |s| then None
    else if InlineAt(s, p).Some? then InlineAt(s, p)
    else NextInline(s, p + 1)
  }

  /**
   * The search finds the first position from `p` on where the pattern
   * matches, and nothing when it matches nowhere from there.
   */
  lemma {:induction false} NextInlineIsFirst(s: string, p: nat)
    requires p <= |s|
    ensures NextInline(s, p).Some? ==> InlineAt(s, NextInline(s, p).value.start) == NextInline(s, p)
    ensures NextInline(s, p).Some? ==> forall q :: p <= q < NextInline(s, p).value.start ==> InlineAt(s, q).None?
    ensures NextInline(s, p).None? ==> forall q :: p <= q <= |s| ==> InlineAt(s, q).None?
  {
    if NextInline(s, p).Some? {
      NextInlineFound(s, p);
    } else {
      NextInlineNone(s, p);
    }
  }

  lemma {:induction false} NextInlineFound(s: string, p: nat)
    requires p <= |s| && NextInline(s, p).Some?
    ensures InlineAt(s, NextInline(s, p).value.start) == NextInline(s, p)
    ensures forall q :: p <= q < NextInline(s, p).value.start ==> InlineAt(s, q).None?
    decreases |s| - p
  {
    if InlineAt(s, p).None? {
      NextInlineFound(s, p + 1);
    }
  }

  lemma {:induction false} NextInlineNone(s: string, p: nat)
    requires p <= |s| && NextInline(s, p).None?
    ensures forall q :: p <= q <= |s| ==> InlineAt(s, q).None?
    decreases |s| - p
  {
    if p < |s| {
      NextInlineNone(s, p + 1);
    } else {
      assert InlineAt(s, p).None?;
    }
  }

  /** The tag of an inline match, found on line `lineCount`; the columns count from 1. */
  function InlineTag(s: string, m: InlineMatch, ids: Identifiers, main: Source, lineCount: int): Tag
    requires m.nameEnd <= m.valueStart <= m.valueEnd <= |s| && m.start + 2 <= m.nameEnd
  {
    var name := s[m.start + 2..m.nameEnd];
    Tag(if name in ids then Some(name) else None, s[m.valueStart..m.valueEnd],
        SubSource(main, lineCount, 1 + m.start, m.valueEnd + 1),
        Some(SubSource(main, lineCount, 1 + m.valueStart, m.valueEnd)), false)
  }

  /** appendReplacement: the text from `p` up to the match, then the placeholder numbered `count`. */
  function Replaced(sb: string, s: string, p: nat, start: nat, count: nat): string
    requires p <= start <= |s|
  {
    sb + s[p..start] + Placeholder(count)
  }

  /**
   * What the find/appendReplacement loop from position `p` writes: the text
   * up to each match is copied and the match becomes a placeholder, numbered
   * from `count` on; the tail is copied at the end.
   */
  function InlineText(s: string, p: nat, sb: string, count: nat): string
    requires p <= |s|
    decreases |s| - p
  {
    match NextInline(s, p)
    case None => sb + s[p..]
    case Some(m) => InlineText(s, m.valueEnd + 1, Replaced(sb, s, p, m.start, count), count + 1)
  }

  /** The tags the same loop adds: one for each match, in order. */
  function InlineTags(s: string, p: nat, tags: seq<Tag>, ids: Identifiers, main: Source, lineCount: int): seq<Tag>
    requires p <= |s|
    decreases |s| - p
  {
    match NextInline(s, p)
    case None => tags
    case Some(m) => InlineTags(s, m.valueEnd + 1, tags + [InlineTag(s, m, ids, main, lineCount)], ids, main, lineCount)
  }

  // ---------------------------------------------------------------------------
  // lines

  /** One line: its block part, then its inline tags, then a line feed. */
  function LineResult(line: string, lineCount: int, sb: string, tags: seq<Tag>, ids: Identifiers, main: Source, asWritten: bool): (string, seq<Tag>)
  {
    var start := LineStartOf(line, ids, main, lineCount, |tags|, asWritten);
    var tags1 := if start.tag.Some? then tags + [start.tag.value] else tags;
    (InlineText(start.rest, 0, sb + start.text, |tags1|) + "\n", InlineTags(start.rest, 0, tags1, ids, main, lineCount))
  }

  /** The loop over the lines from line `k` on. */
  function ExtractFrom(ls: seq<string>, k: nat, sb: string, tags: seq<Tag>, ids: Identifiers, main: Source, asWritten: bool): (string, seq<Tag>)
    requires k <= |ls|
    decreases |ls| - k
  {
    if k == |ls| then (sb, tags)
    else
      var (sb', tags') := LineResult(ls[k], k, sb, tags, ids, main, asWritten);
      ExtractFrom(ls, k + 1, sb', tags', ids, main, asWritten)
  }

  /** internalExtractTags over the lines of `comment.split("\\n")`. */
  function ExtractTags(comment: string, main: Source, ids: Identifiers, asWritten: bool): JavaDoc
  {
    var (text, tags) := ExtractFrom(Split(comment, '\n'), 0, "", [], ids, main, asWritten);
    JavaDoc(main, text, tags)
  }

  /** internalExtractTags: the loop over the lines, with the loop over the inline tags inside. */
  method InternalExtractTags(comment: string, main: Source, ids: Identifiers) returns (doc: JavaDoc)
    ensures doc == ExtractTags(comment, main, ids, false)
  {
    var tags: seq<Tag> := [];
    var lineCount := 0;
    var modifiedComment := "";
    var lines := Split(comment, '\n');
    while lineCount < |lines|
      invariant lineCount <= |lines|
      invariant ExtractFrom(lines, lineCount, modifiedComment, tags, ids, main, false) == ExtractFrom(lines, 0, "", [], ids, main, false)
      decreases |lines| - lineCount
    {
      modifiedComment, tags := ExtractLine(lines[lineCount], lineCount, modifiedComment, tags, ids, main);
      lineCount := lineCount + 1;
    }
    doc := JavaDoc(main, modifiedComment, tags);
  }

  /** The body of the loop over the lines: the block tag, then the inline tags. */
  method ExtractLine(line: string, lineCount: nat, sb: string, tags: seq<Tag>, ids: Identifiers, main: Source) returns (sb': string, tags': seq<Tag>)
    ensures (sb', tags') == LineResult(line, lineCount, sb, tags, ids, main, false)
  {
    var start := MatchBlockTag(line, lineCount, |tags|, ids, main);
    var tags1 := if start.tag.Some? then tags + [start.tag.value] else tags;
    var modifiedComment;
    modifiedComment, tags' := ReplaceInlineTags(start.rest, sb + start.text, tags1, ids, main, lineCount);
    sb' := modifiedComment + "\n";
  }

  /** The find/appendReplacement loop over the rest of a line, then appendTail. */
  method ReplaceInlineTags(restOfLine: string, sb: string, tags: seq<Tag>, ids: Identifiers, main: Source, lineCount: int) returns (sb': string, tags': seq<Tag>)
    ensures sb' == InlineText(restOfLine, 0, sb, |tags|)
    ensures tags' == InlineTags(restOfLine, 0, tags, ids, main, lineCount)
  {
    sb', tags' := sb, tags;
    var pos := 0;
    var found := NextInline(restOfLine, 0);
    while found.Some?
      invariant pos <= |restOfLine| && found == NextInline(restOfLine, pos)
      invariant InlineText(restOfLine, pos, sb', |tags'|) == InlineText(restOfLine, 0, sb, |tags|)
      invariant InlineTags(restOfLine, pos, tags', ids, main, lineCount) == InlineTags(restOfLine, 0, tags, ids, main, lineCount)
      decreases |restOfLine| - pos
    {
      sb', tags', pos := ReplaceInlineTag(restOfLine, pos, sb', tags', ids, main, lineCount, found.value);
      found := NextInline(restOfLine, pos);
    }
    InlineDone(restOfLine, pos, sb', tags', ids, main, lineCount);
    sb' := sb' + restOfLine[pos..];
  }

  /** One appendReplacement: the text before the match, then the tag's placeholder. */
  method ReplaceInlineTag(s: string, pos: nat, sb: string, tags: seq<Tag>, ids: Identifiers, main: Source, lineCount: int, m: InlineMatch)
    returns (sb': string, tags': seq<Tag>, pos': nat)
    requires pos <= |s| && NextInline(s, pos) == Some(m)
    ensures pos < pos' <= |s|
    ensures InlineText(s, pos', sb', |tags'|) == InlineText(s, pos, sb, |tags|)
    ensures InlineTags(s, pos', tags', ids, main, lineCount) == InlineTags(s, pos, tags, ids, main, lineCount)
  {
    var count := |tags|;
    sb' := sb + s[pos..m.start] + Placeholder(count);
    assert sb' == Replaced(sb, s, pos, m.start, count);
    pos' := m.valueEnd + 1;
    InlineTextStep(s, pos, sb, count, m);
    tags' := tags + [InlineTag(s, m, ids, main, lineCount)];
    assert |tags'| == count + 1;
    InlineTagsStep(s, pos, tags, ids, main, lineCount, m);
  }

  lemma InlineTextStep(s: string, p: nat, sb: string, count: nat, m: InlineMatch)
    requires p <= |s| && NextInline(s, p) == Some(m)
    ensures InlineText(s, p, sb, count) == InlineText(s, m.valueEnd + 1, Replaced(sb, s, p, m.start, count), count + 1)
  {
  }

  lemma InlineTagsStep(s: string, p: nat, tags: seq<Tag>, ids: Identifiers, main: Source, lineCount: int, m: InlineMatch)
    requires p <= |s| && NextInline(s, p) == Some(m)
    ensures InlineTags(s, p, tags, ids, main, lineCount) == InlineTags(s, m.valueEnd + 1, tags + [InlineTag(s, m, ids, main, lineCount)], ids, main, lineCount)
  {
  }

  lemma InlineDone(s: string, p: nat, sb: string, tags: seq<Tag>, ids: Identifiers, main: Source, lineCount: int)
    requires p <= |s| && NextInline(s, p).None?
    ensures InlineText(s, p, sb, |tags|) == sb + s[p..]
    ensures InlineTags(s, p, tags, ids, main, lineCount) == tags
  {
  }

  // ---------------------------------------------------------------------------
  // what the loops make of a line

  /** No match starts where there is no `{`, so the search skips such text. */
  lemma {:induction false} NextInlineSkips(s: string, p: nat, q: nat)
    requires p <= q <= |s| && forall j :: p <= j < q ==> s[j] != '{'
    ensures NextInline(s, p) == NextInline(s, q)
    decreases q - p
  {
    if p < q {
      assert InlineAt(s, p).None?;
      NextInlineSkips(s, p + 1, q);
    }
  }

  /** Without an `@` from `p` on there is no inline tag there, and the rest is copied. */
  lemma {:induction false} NoAtNoInline(s: string, p: nat)
    requires p <= |s| && forall j :: p <= j < |s| ==> s[j] != '@'
    ensures NextInline(s, p).None?
    decreases |s| - p
  {
    if p < |s| {
      NoAtNoInline(s, p + 1);
    }
  }

  /** A link `{@name value}` is an inline tag: `name` a run of letters, `value` not starting with a blank and holding no `}`. */
  predicate IsLink(name: string, value: string)
  {
    Letters(name) && value != [] && !IsSpace(value[0]) && '}' !in value
  }

  function Link(name: string, value: string): string
  {
    "{@" + name + " " + value + "}"
  }

  /** Where the parts of a link stand. */
  lemma LinkParts(name: string, value: string)
    ensures var l := Link(name, value);
      |l| == 4 + |name| + |value| && l[0] == '{' && l[1] == '@' && l[2 + |name|] == ' ' && l[|l| - 1] == '}' &&
      l[2..2 + |name|] == name && l[3 + |name|..3 + |name| + |value|] == value
  {
    var l := Link(name, value);
    assert l == (("{@" + name) + (" " + value)) + "}";
    assert (" " + value)[1..] == value;
  }

  /** The pattern matches a link exactly, wherever it stands. */
  /** Where the parts of a link found at position `p` of a line stand. */
  lemma LinkAtParts(s: string, p: nat, name: string, value: string)
    requires p + |Link(name, value)| <= |s| && s[p..p + |Link(name, value)|] == Link(name, value)
    ensures |Link(name, value)| == 4 + |name| + |value|
    ensures s[p] == '{' && s[p + 1] == '@' && s[p + 2 + |name|] == ' ' && s[p + 3 + |name| + |value|] == '}'
    ensures s[p + 2..p + 2 + |name|] == name && s[p + 3 + |name|..p + 3 + |name| + |value|] == value
  {
    var l := Link(name, value);
    LinkParts(name, value);
    assert s[p] == l[0] && s[p + 1] == l[1] && s[p + 2 + |name|] == l[2 + |name|] && s[p + |l| - 1] == l[|l| - 1];
    forall k | 0 <= k < |name|
      ensures s[p + 2..p + 2 + |name|][k] == name[k]
    {
      assert s[p + 2 + k] == l[2 + k] == l[2..2 + |name|][k];
    }
    forall k | 0 <= k < |value|
      ensures s[p + 3 + |name|..p + 3 + |name| + |value|][k] == value[k]
    {
      assert s[p + 3 + |name| + k] == l[3 + |name| + k] == l[3 + |name|..3 + |name| + |value|][k];
    }
  }

  lemma InlineAtLink(s: string, p: nat, name: string, value: string)
    requires IsLink(name, value) && p + |Link(name, value)| <= |s| && s[p..p + |Link(name, value)|] == Link(name, value)
    ensures InlineAt(s, p) == Some(InlineMatch(p, p + 2 + |name|, p + 3 + |name|, p + 3 + |name| + |value|))
  {
    var a := p + 2 + |name|;
    var e := a + 1 + |value|;
    LinkAtParts(s, p, name, value);
    forall j | p + 2 <= j < a
      ensures InClass(s[j], Alpha)
    {
      assert s[j] == s[p + 2..a][j - p - 2] == name[j - p - 2];
    }
    RunOf(s, p + 2, a, Alpha);
    assert s[a + 1] == s[a + 1..e][0] == value[0];
    RunOf(s, a, a + 1, Space);
    forall j | a + 1 <= j < e
      ensures InClass(s[j], NotBrace)
    {
      assert s[j] == s[a + 1..e][j - a - 1] == value[j - a - 1];
      assert value[j - a - 1] in value;
    }
    RunOf(s, a + 1, e, NotBrace);
  }

  /** The tag a link found at position `start` makes. */
  lemma LinkTag(s: string, start: nat, name: string, value: string, ids: Identifiers, main: Source, lineCount: int)
    requires start + |Link(name, value)| <= |s| && s[start..start + |Link(name, value)|] == Link(name, value)
    ensures var m := InlineMatch(start, start + 2 + |name|, start + 3 + |name|, start + 3 + |name| + |value|);
      m.valueEnd < |s| &&
      InlineTag(s, m, ids, main, lineCount) == Tag(if name in ids then Some(name) else None, value,
        SubSource(main, lineCount, 1 + start, m.valueEnd + 1), Some(SubSource(main, lineCount, 1 + m.valueStart, m.valueEnd)), false)
  {
    LinkAtParts(s, start, name, value);
  }

  /**
   * A line with a link at `start`, no `{` before it and no `@` after it,
   * becomes the text before the link, the placeholder of the next tag
   * number, and the text after the link; the one new tag holds the link's
   * value, its name when the name is known, and its columns.
   */
  lemma LinkAt(s: string, start: nat, name: string, value: string, sb: string, tags: seq<Tag>, ids: Identifiers, main: Source, lineCount: int)
    requires IsLink(name, value) && start + |Link(name, value)| <= |s| && s[start..start + |Link(name, value)|] == Link(name, value)
    requires forall j :: 0 <= j < start ==> s[j] != '{'
    requires forall j :: start + |Link(name, value)| <= j < |s| ==> s[j] != '@'
    ensures InlineText(s, 0, sb, |tags|) == sb + s[..start] + Placeholder(|tags|) + s[start + |Link(name, value)|..]
    ensures var valueStart := start + 3 + |name|;
      var valueEnd := valueStart + |value|;
      InlineTags(s, 0, tags, ids, main, lineCount) ==
      tags + [Tag(if name in ids then Some(name) else None, value,
                  SubSource(main, lineCount, 1 + start, valueEnd + 1),
                  Some(SubSource(main, lineCount, 1 + valueStart, valueEnd)), false)]
  {
    var m := LinkMatch(s, start, name, value);
    LinkAtText(s, start, name, value, sb, tags, ids, main, lineCount, m);
    LinkAtTags(s, start, name, value, tags, ids, main, lineCount, m);
  }

  /** The search from the start of the line finds the link, which ends where the rest starts. */
  lemma LinkMatch(s: string, start: nat, name: string, value: string) returns (m: InlineMatch)
    requires IsLink(name, value) && start + |Link(name, value)| <= |s| && s[start..start + |Link(name, value)|] == Link(name, value)
    requires forall j :: 0 <= j < start ==> s[j] != '{'
    ensures m == InlineMatch(start, start + 2 + |name|, start + 3 + |name|, start + 3 + |name| + |value|)
    ensures NextInline(s, 0) == Some(m) && m.valueEnd + 1 == start + |Link(name, value)|
  {
    m := InlineMatch(start, start + 2 + |name|, start + 3 + |name|, start + 3 + |name| + |value|);
    InlineAtLink(s, start, name, value);
    NextInlineSkips(s, 0, start);
    LinkAtParts(s, start, name, value);
  }

  lemma LinkAtText(s: string, start: nat, name: string, value: string, sb: string, tags: seq<Tag>, ids: Identifiers, main: Source, lineCount: int, m: InlineMatch)
    requires NextInline(s, 0) == Some(m) && m.start == start && m.valueEnd + 1 == start + |Link(name, value)|
    requires forall j :: start + |Link(name, value)| <= j < |s| ==> s[j] != '@'
    ensures InlineText(s, 0, sb, |tags|) == sb + s[..start] + Placeholder(|tags|) + s[start + |Link(name, value)|..]
  {
    var rest := start + |Link(name, value)|;
    InlineTextStep(s, 0, sb, |tags|, m);
    NoAtNoInline(s, rest);
    assert Replaced(sb, s, 0, start, |tags|) == sb + s[0..start] + Placeholder(|tags|);
    InlineDone(s, rest, sb + s[0..start] + Placeholder(|tags|), tags + [InlineTag(s, m, ids, main, lineCount)], ids, main, lineCount);
    assert s[0..start] == s[..start];
  }

  lemma LinkAtTags(s: string, start: nat, name: string, value: string, tags: seq<Tag>, ids: Identifiers, main: Source, lineCount: int, m: InlineMatch)
    requires start + |Link(name, value)| <= |s| && s[start..start + |Link(name, value)|] == Link(name, value)
    requires m == InlineMatch(start, start + 2 + |name|, start + 3 + |name|, start + 3 + |name| + |value|)
    requires NextInline(s, 0) == Some(m) && m.valueEnd + 1 == start + |Link(name, value)|
    requires forall j :: start + |Link(name, value)| <= j < |s| ==> s[j] != '@'
    ensures var valueStart := start + 3 + |name|;
      var valueEnd := valueStart + |value|;
      InlineTags(s, 0, tags, ids, main, lineCount) ==
      tags + [Tag(if name in ids then Some(name) else None, value,
                  SubSource(main, lineCount, 1 + start, valueEnd + 1),
                  Some(SubSource(main, lineCount, 1 + valueStart, valueEnd)), false)]
  {
    var rest := start + |Link(name, value)|;
    LinkTag(s, start, name, value, ids, main, lineCount);
    InlineTagsStep(s, 0, tags, ids, main, lineCount, m);
    NoAtNoInline(s, rest);
    InlineDone(s, rest, "", tags + [InlineTag(s, m, ids, main, lineCount)], ids, main, lineCount);
  }

  /** A line without `@` has no tag of either kind and is copied, with a line feed. */
  lemma LinePlain(line: string, lineCount: int, sb: string, tags: seq<Tag>, ids: Identifiers, main: Source, asWritten: bool)
    requires '@' !in line
    ensures LineResult(line, lineCount, sb, tags, ids, main, asWritten) == (sb + line + "\n", tags)
  {
    forall j | 0 <= j < |line|
      ensures line[j] != '@'
    {
      assert line[j] in line;
    }
    assert LineStartOf(line, ids, main, lineCount, |tags|, asWritten) == LineStart("", None, line);
    NoAtNoInline(line, 0);
    InlineDone(line, 0, sb + "", tags, ids, main, lineCount);
    assert sb + "" == sb && line[0..] == line;
  }

  /** Lines without `@` from line `k` on are copied, each followed by a line feed. */
  lemma {:induction false} ExtractPlain(ls: seq<string>, k: nat, sb: string, tags: seq<Tag>, ids: Identifiers, main: Source, asWritten: bool)
    requires k < |ls| && forall j :: k <= j < |ls| ==> '@' !in ls[j]
    ensures ExtractFrom(ls, k, sb, tags, ids, main, asWritten) == (sb + Join(ls[k..], "\n") + "\n", tags)
    decreases |ls| - k
  {
    ExtractPlainStep(ls, k, sb, tags, ids, main, asWritten);
    if k + 1 < |ls| {
      ExtractPlain(ls, k + 1, sb + ls[k] + "\n", tags, ids, main, asWritten);
      JoinFront(ls, k);
      assert sb + ls[k] + "\n" + Join(ls[k + 1..], "\n") == sb + (ls[k] + "\n" + Join(ls[k + 1..], "\n"));
    } else {
      assert ls[k..] == [ls[k]];
    }
  }

  lemma ExtractPlainStep(ls: seq<string>, k: nat, sb: string, tags: seq<Tag>, ids: Identifiers, main: Source, asWritten: bool)
    requires k < |ls| && '@' !in ls[k]
    ensures ExtractFrom(ls, k, sb, tags, ids, main, asWritten) == ExtractFrom(ls, k + 1, sb + ls[k] + "\n", tags, ids, main, asWritten)
  {
    LinePlain(ls[k], k, sb, tags, ids, main, asWritten);
  }

  lemma JoinFront(ls: seq<string>, k: nat)
    requires k + 1 < |ls|
    ensures Join(ls[k..], "\n") == ls[k] + "\n" + Join(ls[k + 1..], "\n")
  {
    assert ls[k..] == [ls[k]] + ls[k + 1..];
    JoinCons(ls[k], ls[k + 1..], "\n");
  }

  /**
   * A comment without `@` that does not end in a line feed is kept as it is,
   * with a line feed added, and has no tags.
   */
  lemma PlainCommentKept(comment: string, main: Source, ids: Identifiers)
    requires '@' !in comment && comment != "" && comment[|comment| - 1] != '\n'
    ensures ExtractTags(comment, main, ids, false) == JavaDoc(main, comment + "\n", [])
  {
    var ls := Split(comment, '\n');
    SplitWhole(comment, '\n');
    forall j | 0 <= j < |ls|
      ensures '@' !in ls[j]
    {
      if '@' in ls[j] {
        PiecesWithin(comment, '\n', j, '@');
      }
    }
    ExtractPlain(ls, 0, "", [], ids, main, false);
    assert ls[0..] == ls;
  }

  // ---------------------------------------------------------------------------
  // the order of the tags

  /** Every tag lies on a line from `lo` up to, not including, `hi`. */
  predicate LinesWithin(tags: seq<Tag>, lo: int, hi: int)
  {
    forall i :: 0 <= i < |tags| ==> lo <= tags[i].source.beginLine < hi
  }

  /** The tags come in the order of their lines. */
  predicate LinesAscend(tags: seq<Tag>)
  {
    forall i, j :: 0 <= i < j < |tags| ==> tags[i].source.beginLine <= tags[j].source.beginLine
  }

  /** A block tag is the first tag of its line. */
  predicate BlockTagsLead(tags: seq<Tag>)
  {
    forall i :: 0 < i < |tags| && tags[i].blockTag ==> tags[i - 1].source.beginLine < tags[i].source.beginLine
  }

  /** Inline tags, all on line `line`. */
  predicate InlineOnLine(ts: seq<Tag>, line: int)
  {
    forall i :: 0 <= i < |ts| ==> ts[i].source.beginLine == line && !ts[i].blockTag
  }

  /** `r` is `tags` followed by inline tags on line `line`. */
  predicate AddsInline(tags: seq<Tag>, r: seq<Tag>, line: int)
  {
    |tags| <= |r| && r == tags + r[|tags|..] && InlineOnLine(r[|tags|..], line)
  }

  /** The tags an inline loop adds come after the earlier ones, lie on its line, and are inline tags. */
  lemma {:induction false} InlineTagsOnLine(s: string, p: nat, tags: seq<Tag>, ids: Identifiers, main: Source, lineCount: int)
    requires p <= |s|
    ensures AddsInline(tags, InlineTags(s, p, tags, ids, main, lineCount), main.beginLine + lineCount)
    decreases |s| - p, 1
  {
    var n := NextInline(s, p);
    if n.Some? {
      InlineTagsOnLineFrom(s, p, tags, ids, main, lineCount, n.value);
    } else {
      assert tags[|tags|..] == [];
    }
  }

  /** The step of `InlineTagsOnLine` at a match: its tag, then the tags after it. */
  lemma {:induction false} InlineTagsOnLineFrom(s: string, p: nat, tags: seq<Tag>, ids: Identifiers, main: Source, lineCount: int, m: InlineMatch)
    requires p <= |s| && NextInline(s, p) == Some(m)
    ensures AddsInline(tags, InlineTags(s, p, tags, ids, main, lineCount), main.beginLine + lineCount)
    decreases |s| - p, 0
  {
    var t := InlineTag(s, m, ids, main, lineCount);
    InlineTagsStep(s, p, tags, ids, main, lineCount, m);
    InlineTagsOnLine(s, m.valueEnd + 1, tags + [t], ids, main, lineCount);
    AddsInlineCons(tags, t, InlineTags(s, m.valueEnd + 1, tags + [t], ids, main, lineCount), main.beginLine + lineCount);
  }

  lemma AddsInlineCons(tags: seq<Tag>, t: Tag, r: seq<Tag>, line: int)
    requires t.source.beginLine == line && !t.blockTag && AddsInline(tags + [t], r, line)
    ensures AddsInline(tags, r, line)
  {
    assert r[|tags|..] == [t] + r[|tags| + 1..];
  }

  /** The tags a line adds lie on that line, and only the first of them can be a block tag. */
  lemma LineTags(line: string, lineCount: int, sb: string, tags: seq<Tag>, ids: Identifiers, main: Source, asWritten: bool)
    ensures var r := LineResult(line, lineCount, sb, tags, ids, main, asWritten).1;
      |tags| <= |r| && r[..|tags|] == tags &&
      (forall i :: |tags| <= i < |r| ==> r[i].source.beginLine == main.beginLine + lineCount) &&
      (forall i :: |tags| < i < |r| ==> !r[i].blockTag)
  {
    var start := LineStartOf(line, ids, main, lineCount, |tags|, asWritten);
    var tags1 := if start.tag.Some? then tags + [start.tag.value] else tags;
    InlineTagsOnLine(start.rest, 0, tags1, ids, main, lineCount);
    var r := InlineTags(start.rest, 0, tags1, ids, main, lineCount);
    if start.tag.Some? {
      assert start.tag.value.source.beginLine == main.beginLine + lineCount;
      LineTagsAfterBlock(tags, start.tag.value, r, main.beginLine + lineCount);
    } else {
      LineTagsInline(tags, r, main.beginLine + lineCount);
    }
  }

  lemma LineTagsAfterBlock(tags: seq<Tag>, t: Tag, r: seq<Tag>, line: int)
    requires t.source.beginLine == line && AddsInline(tags + [t], r, line)
    ensures |tags| <= |r| && r[..|tags|] == tags &&
      (forall i :: |tags| <= i < |r| ==> r[i].source.beginLine == line) &&
      (forall i :: |tags| < i < |r| ==> !r[i].blockTag)
  {
    assert r[..|tags|] == (tags + [t] + r[|tags| + 1..])[..|tags|];
    forall i | |tags| < i < |r|
      ensures r[i].source.beginLine == line && !r[i].blockTag
    {
      assert r[i] == r[|tags| + 1..][i - |tags| - 1];
    }
  }

  lemma LineTagsInline(tags: seq<Tag>, r: seq<Tag>, line: int)
    requires AddsInline(tags, r, line)
    ensures |tags| <= |r| && r[..|tags|] == tags &&
      (forall i :: |tags| <= i < |r| ==> r[i].source.beginLine == line) &&
      (forall i :: |tags| < i < |r| ==> !r[i].blockTag)
  {
    assert r[..|tags|] == (tags + r[|tags|..])[..|tags|];
    forall i | |tags| <= i < |r|
      ensures r[i].source.beginLine == line && !r[i].blockTag
    {
      assert r[i] == r[|tags|..][i - |tags|];
    }
  }

  /** Adding the tags of line `k` after those of the lines before keeps them in order. */
  lemma LineKeepsOrder(tags: seq<Tag>, r: seq<Tag>, lo: int, k: nat)
    requires |tags| <= |r| && r[..|tags|] == tags
    requires LinesAscend(tags) && BlockTagsLead(tags) && LinesWithin(tags, lo, lo + k)
    requires forall i :: |tags| <= i < |r| ==> r[i].source.beginLine == lo + k
    requires forall i :: |tags| < i < |r| ==> !r[i].blockTag
    ensures LinesAscend(r) && BlockTagsLead(r) && LinesWithin(r, lo, lo + k + 1)
  {
    forall i | 0 <= i < |tags|
      ensures r[i] == tags[i]
    {
      assert r[..|tags|][i] == r[i];
    }
  }

  lemma ExtractStep(ls: seq<string>, k: nat, sb: string, tags: seq<Tag>, ids: Identifiers, main: Source, asWritten: bool)
    requires k < |ls|
    ensures var (sb', tags') := LineResult(ls[k], k, sb, tags, ids, main, asWritten);
      ExtractFrom(ls, k, sb, tags, ids, main, asWritten) == ExtractFrom(ls, k + 1, sb', tags', ids, main, asWritten)
  {
  }

  /** From line `k` on, the tags stay in the order of their lines, each block tag leading its line. */
  lemma {:induction false} ExtractOrdered(ls: seq<string>, k: nat, sb: string, tags: seq<Tag>, ids: Identifiers, main: Source, asWritten: bool)
    requires k <= |ls|
    requires LinesAscend(tags) && BlockTagsLead(tags) && LinesWithin(tags, main.beginLine, main.beginLine + k)
    ensures var r := ExtractFrom(ls, k, sb, tags, ids, main, asWritten).1;
      LinesAscend(r) && BlockTagsLead(r) && LinesWithin(r, main.beginLine, main.beginLine + |ls|)
    decreases |ls| - k
  {
    if k < |ls| {
      var (sb', tags') := LineResult(ls[k], k, sb, tags, ids, main, asWritten);
      ExtractStep(ls, k, sb, tags, ids, main, asWritten);
      LineTags(ls[k], k, sb, tags, ids, main, asWritten);
      LineKeepsOrder(tags, tags', main.beginLine, k);
      ExtractOrdered(ls, k + 1, sb', tags', ids, main, asWritten);
    }
  }

  /**
   * The tags of a comment follow its lines: each lies on a line of the
   * comment, they come in the order of their lines, and a block tag is the
   * first tag of its line.
   */
  lemma TagsInLineOrder(comment: string, main: Source, ids: Identifiers, asWritten: bool)
    ensures var tags := ExtractTags(comment, main, ids, asWritten).tags;
      LinesAscend(tags) && BlockTagsLead(tags) &&
      LinesWithin(tags, main.beginLine, main.beginLine + |Split(comment, '\n')|)
  {
    ExtractOrdered(Split(comment, '\n'), 0, "", [], ids, main, asWritten);
  }

  /** The block-tag part of the loop body, `count` tags having been found before. */
  method MatchBlockTag(line: string, lineCount: nat, count: nat, ids: Identifiers, main: Source) returns (start: LineStart)
    ensures start == LineStartOf(line, ids, main, lineCount, count, false)
  {
    var blockTagMatch := BlockTagMatch(line);
    if blockTagMatch.None? {
      return LineStart("", None, line);
    }
    var m := blockTagMatch.value;
    var name := line[m.prefixEnd + 1..m.tagEnd];
    if name in ids {
      start := MakeBlockTag(line, m, ids[name], lineCount, count, main);
    } else {
      var restOfLine := RestAfter(line, m.tagEnd);
      start := LineStart(line[..m.prefixEnd] + line[m.prefixEnd..m.tagEnd], None, restOfLine);
    }
  }

  /** A known block tag, whose name takes `arguments` arguments. */
  method MakeBlockTag(line: string, m: BlockMatch, arguments: nat, lineCount: nat, count: nat, main: Source) returns (start: LineStart)
    requires m.prefixEnd + 1 < m.tagEnd <= |line|
    ensures start == KnownBlockTag(line, m, arguments, main, lineCount, count)
  {
    var name := line[m.prefixEnd + 1..m.tagEnd];
    var endOfTag := m.tagEnd;
    var content: string;
    var end: nat;
    var sourceOfReference: Option<Source>;
    if arguments > 0 && endOfTag + 1 < |line| {
      content := BlockArgument(line, endOfTag);
      end := endOfTag + 1 + |content|;
      sourceOfReference := Some(SubSource(main, lineCount, endOfTag + 2, end));
    } else {
      content := "";
      end := endOfTag;
      sourceOfReference := None;
    }
    var sourceOfTag := SubSource(main, lineCount, m.prefixEnd + 1, end);
    var blockTag := Tag(Some(name), content, sourceOfTag, sourceOfReference, true);
    var modifiedComment := line[..m.prefixEnd] + Placeholder(count) + " ";
    var restOfLine := RestAfter(line, end + 1);
    start := LineStart(modifiedComment, Some(blockTag), restOfLine);
  }
}
