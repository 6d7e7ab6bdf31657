/**
 * Escape sequences in Java string and text-block literals (section 3.10.7 of
 * the Java Language Specification): the one-letter escapes, and the
 * translation of a text block's contents that replaces every escape except a
 * backslash before a line terminator.
 */
module EscapeSequence {
  import opened JavaLang

  const BACKSPACE: char := 8 as char
  const FORM_FEED: char := 12 as char

  /** escapeSequence: the character a one-letter escape stands for; the other letters throw. */
  function EscapeChar(c2: char): (r: Option<char>)
    ensures r.Some? <==> c2 in {'0', 'b', 'r', 't', 'n', 'f', '\'', '\\', '"'}
  {
    match c2
    case '0' => Some(0 as char)
    case 'b' => Some(BACKSPACE)
    case 'r' => Some('\r')
    case 't' => Some('\t')
    case 'n' => Some('\n')
    case 'f' => Some(FORM_FEED)
    case '\'' => Some('\'')
    case '\\' => Some('\\')
    case '"' => Some('"')
    case _ => None
  }

  /** The letter that writes `c` as an escape, for the characters that have one. */
  function EscapeLetter(c: char): Option<char>
  {
    if c == 0 as char then Some('0')
    else if c == BACKSPACE then Some('b')
    else if c == '\r' then Some('r')
    else if c == '\t' then Some('t')
    else if c == '\n' then Some('n')
    else if c == FORM_FEED then Some('f')
    else if c == '\'' then Some('\'')
    else if c == '\\' then Some('\\')
    else if c == '"' then Some('"')
    else None
  }

  /** The escape letters and the characters they stand for are each other's inverse. */
  lemma EscapeLetterInverts(c: char)
    ensures EscapeLetter(c).Some? ==> EscapeChar(EscapeLetter(c).value) == Some(c)
    ensures EscapeChar(c).Some? ==> EscapeLetter(EscapeChar(c).value) == Some(c)
  {
  }

  /** Text that precedes what the rest of a translation gives. */
  function Prefixed(t: string, rest: Try<string>): Try<string>
  {
    match rest
    case Success(u) => Success(t + u)
    case Failure(e) => Failure(e)
  }

  /**
   * translateEscapeInTextBlock from position `i` on: a backslash before any
   * character but a newline is an escape of two characters, a backslash
   * before a newline or at the very end is copied, and so is every other
   * character; an unknown escape letter throws.
   */
  function TranslateFrom(s: string, i: nat): Try<string>
    requires i <= |s|
    decreases |s| - i
  {
    if i == |s| then Success("")
    else if s[i] == '\\' && i + 1 < |s| && s[i + 1] != '\n' then
      match EscapeChar(s[i + 1])
      case None => Failure(UnsupportedOperation(""))
      case Some(c) => Prefixed([c], TranslateFrom(s, i + 2))
    else Prefixed([s[i]], TranslateFrom(s, i + 1))
  }

  function Translate(s: string): Try<string>
  {
    TranslateFrom(s, 0)
  }

  /** translateEscapeInTextBlock: the while loop over the characters, appending to a builder. */
  method TranslateEscapeInTextBlock(input: string) returns (r: Try<string>)
    ensures r == Translate(input)
  {
    var sb := "";
    var i := 0;
    PrefixedEmpty(TranslateFrom(input, 0));
    while i < |input|
      invariant i <= |input|
      invariant Translate(input) == Prefixed(sb, TranslateFrom(input, i))
      decreases |input| - i
    {
      var c := input[i];
      if c == '\\' && i + 1 < |input| {
        var c2 := input[i + 1];
        if c2 != '\n' {
          var e := EscapeChar(c2);
          if e.None? {
            return Failure(UnsupportedOperation(""));
          }
          PrefixedAppend(sb, [e.value], TranslateFrom(input, i + 2));
          sb := sb + [e.value];
          i := i + 1;
        } else {
          PrefixedAppend(sb, [c], TranslateFrom(input, i + 1));
          sb := sb + [c];
        }
      } else {
        PrefixedAppend(sb, [c], TranslateFrom(input, i + 1));
        sb := sb + [c];
      }
      i := i + 1;
    }
    assert sb + "" == sb;
    return Success(sb);
  }

  lemma PrefixedEmpty(rest: Try<string>)
    ensures Prefixed("", rest) == rest
  {
    if rest.Success? {
      assert "" + rest.value == rest.value;
    }
  }

  lemma PrefixedAppend(a: string, b: string, rest: Try<string>)
    ensures Prefixed(a, Prefixed(b, rest)) == Prefixed(a + b, rest)
  {
    if rest.Success? {
      assert a + (b + rest.value) == (a + b) + rest.value;
    }
  }

  /** Each step writes one character and reads at least one, so the result is never longer. */
  lemma {:induction false} TranslateNeverLonger(s: string, i: nat)
    requires i <= |s|
    ensures TranslateFrom(s, i).Success? ==> |TranslateFrom(s, i).value| <= |s| - i
    decreases |s| - i
  {
    if i < |s| {
      if s[i] == '\\' && i + 1 < |s| && s[i + 1] != '\n' {
        TranslateNeverLonger(s, i + 2);
      } else {
        TranslateNeverLonger(s, i + 1);
      }
    }
  }

  /** A string without a backslash is translated to itself. */
  lemma {:induction false} NoBackslashUnchanged(s: string, i: nat)
    requires i <= |s| && '\\' !in s
    ensures TranslateFrom(s, i) == Success(s[i..])
    decreases |s| - i
  {
    if i < |s| {
      assert s[i] in s;
      NoBackslashUnchanged(s, i + 1);
      assert s[i..] == [s[i]] + s[i + 1..];
    } else {
      assert s[i..] == "";
    }
  }

  /** Text written with an escape for every character that has one. */
  function Escaped(t: string): (r: string)
    ensures |t| <= |r| <= 2 * |t|
  {
    if t == [] then []
    else (if EscapeLetter(t[0]).Some? then ['\\', EscapeLetter(t[0]).value] else [t[0]]) + Escaped(t[1..])
  }

  /**
   * Translating escaped text followed by anything gives the text back, in
   * front of what translating the rest gives.
   */
  lemma {:induction false} TranslateEscaped(t: string, rest: string)
    ensures Translate(Escaped(t) + rest) == Prefixed(t, Translate(rest))
    decreases |t|
  {
    if t != [] {
      var tail := Escaped(t[1..]) + rest;
      TranslateEscaped(t[1..], rest);
      var e := EscapeLetter(t[0]);
      if e.Some? {
        EscapeLetterInverts(t[0]);
        TranslateEscapeStep(e.value, t[0], tail);
        assert Escaped(t) + rest == ['\\', e.value] + tail;
      } else {
        TranslatePlainStep(t[0], tail);
        assert Escaped(t) + rest == [t[0]] + tail;
      }
      PrefixedAppend([t[0]], t[1..], Translate(rest));
      assert [t[0]] + t[1..] == t;
    } else {
      assert Escaped(t) + rest == rest;
      PrefixedEmpty(Translate(rest));
    }
  }

  /** An escape at the front is translated to its character. */
  lemma TranslateEscapeStep(letter: char, c: char, tail: string)
    requires letter != '\n' && EscapeChar(letter) == Some(c)
    ensures Translate(['\\', letter] + tail) == Prefixed([c], Translate(tail))
  {
    var s := ['\\', letter] + tail;
    TranslateShift(s, 2, tail);
  }

  /** A character other than a backslash at the front is copied. */
  lemma TranslatePlainStep(c: char, tail: string)
    requires c != '\\'
    ensures Translate([c] + tail) == Prefixed([c], Translate(tail))
  {
    var s := [c] + tail;
    TranslateShift(s, 1, tail);
  }

  /** Translating from position `k` is translating the suffix from `k`. */
  lemma {:induction false} TranslateShift(s: string, k: nat, suffix: string)
    requires k <= |s| && s[k..] == suffix
    ensures TranslateFrom(s, k) == Translate(suffix)
  {
    TranslateShiftFrom(s, k, suffix, 0);
  }

  lemma {:induction false} TranslateShiftFrom(s: string, k: nat, suffix: string, j: nat)
    requires k <= |s| && s[k..] == suffix && j <= |suffix|
    ensures TranslateFrom(s, k + j) == TranslateFrom(suffix, j)
    decreases |suffix| - j
  {
    if j < |suffix| {
      assert s[k + j] == suffix[j];
      if j + 1 < |suffix| {
        assert s[k + j + 1] == suffix[j + 1];
        TranslateShiftFrom(s, k, suffix, j + 2);
      }
      TranslateShiftFrom(s, k, suffix, j + 1);
    }
  }

  /** Every string is the translation of its escaped form. */
  lemma TranslateRoundTrip(t: string)
    ensures Translate(Escaped(t)) == Success(t)
  {
    TranslateEscaped(t, "");
    assert Escaped(t) + "" == Escaped(t);
    assert t + "" == t;
  }

  /** A backslash before a newline is kept, and so is the newline after it. */
  lemma BackslashNewlineKept(t: string, u: string)
    ensures Translate(Escaped(t) + "\\\n" + Escaped(u)) == Success(t + "\\\n" + u)
  {
    var bn := ['\\', '\n'];
    assert bn == "\\\n";
    assert Escaped(t) + bn + Escaped(u) == Escaped(t) + (bn + Escaped(u));
    TranslateEscaped(t, bn + Escaped(u));
    BackslashNewlineFront(u);
    assert t + (bn + u) == t + bn + u;
  }

  lemma BackslashNewlineFront(u: string)
    ensures Translate(['\\', '\n'] + Escaped(u)) == Success(['\\', '\n'] + u)
  {
    var tail := ['\n'] + Escaped(u);
    var s := ['\\'] + tail;
    assert s[0] == '\\' && s[1] == '\n';
    TranslateShift(s, 1, tail);
    TranslatePlainStep('\n', Escaped(u));
    TranslateRoundTrip(u);
    PrefixedAppend(['\\'], ['\n'], Success(u));
    assert ['\\'] + tail == ['\\', '\n'] + Escaped(u);
    assert ['\\'] + ['\n'] == ['\\', '\n'];
  }

  /** A lone backslash at the very end is copied. */
  lemma TrailingBackslashKept(t: string)
    ensures Translate(Escaped(t) + "\\") == Success(t + "\\")
  {
    TranslateEscaped(t, "\\");
    assert TranslateFrom("\\", 1) == Success("");
    assert "\\" + "" == "\\";
    assert Translate("\\") == Success("\\");
  }

  /** A backslash before a letter that is not an escape makes the whole translation throw. */
  lemma UnknownEscapeThrows(t: string, c: char, rest: string)
    requires c != '\n' && EscapeChar(c).None?
    ensures Translate(Escaped(t) + ['\\', c] + rest) == Failure(UnsupportedOperation(""))
  {
    var tail := ['\\', c] + rest;
    assert Escaped(t) + ['\\', c] + rest == Escaped(t) + tail;
    TranslateEscaped(t, tail);
    assert tail[0] == '\\' && tail[1] == c;
  }
}
