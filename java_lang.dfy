/**
 * The few java.lang facilities the modelled code relies on, with Java's
 * semantics: String.indexOf / lastIndexOf, startsWith / endsWith, compareTo, trim,
 * split with a single-character separator (trailing empty strings dropped),
 * Integer.toString and Integer.parseInt on ASCII digits.
 */
module JavaLang {

  datatype Option<T> = None | Some(value: T)

  /** The exceptions the modelled code can raise. */
  datatype Exception =
    | IndexOutOfBounds
    | UnsupportedOperation(message: string)
    | RuntimeError(message: string)
    | NullPointer
    | AssertionFailed

  /** A computation that returns a value or throws. */
  datatype Try<T> = Success(value: T) | Failure(exception: Exception)

  const INT_MIN: int := -0x8000_0000
  const INT_MAX: int := 0x7fff_ffff

  predicate IsInt32(i: int) { INT_MIN <= i <= INT_MAX }

  function Max0(i: int): nat { if i < 0 then 0 else i }

  /** A Java `int`. */
  newtype Int32 = i: int | -0x8000_0000 <= i < 0x8000_0000

  /** Math.abs on an `int`: the most negative value is its own absolute value. */
  function Abs32(i: Int32): (r: Int32)
    ensures i != -0x8000_0000 ==> r >= 0 && (r == i || r == -i)
    ensures i == -0x8000_0000 ==> r == i
  {
    if i == -0x8000_0000 then i else if i < 0 then -i else i
  }

  /** String.indexOf(c, from): the first position at or after `from` holding `c`, or -1. */
  function IndexOf(s: string, c: char, from: int): (r: int)
    ensures -1 <= r < |s|
    ensures r >= 0 ==> Max0(from) <= r && s[r] == c
    decreases |s| - from
  {
    if from < 0 then IndexOf(s, c, 0)
    else if from >= |s| then -1
    else if s[from] == c then from
    else IndexOf(s, c, from + 1)
  }

  /** indexOf finds the first occurrence: none is skipped. */
  lemma {:induction false} IndexOfFirst(s: string, c: char, from: int)
    ensures var r := IndexOf(s, c, from);
      (r == -1 ==> forall k :: Max0(from) <= k < |s| ==> s[k] != c) &&
      (r >= 0 ==> forall k :: Max0(from) <= k < r ==> s[k] != c)
    decreases |s| - from
  {
    if from < 0 {
      IndexOfFirst(s, c, 0);
    } else if from < |s| && s[from] != c {
      IndexOfFirst(s, c, from + 1);
    }
  }

  /** Positions before `k` that do not hold `c` do not change where indexOf stops. */
  lemma {:induction false} IndexOfSkip(s: string, c: char, from: nat, k: nat)
    requires from <= k <= |s|
    requires forall j :: from <= j < k ==> s[j] != c
    ensures IndexOf(s, c, from) == IndexOf(s, c, k)
    decreases k - from
  {
    if from < k {
      IndexOfSkip(s, c, from + 1, k);
    }
  }

  /** `t` occurs in `s` starting at position `k`. */
  predicate OccursAt(s: string, t: string, k: nat)
  {
    k + |t| <= |s| && s[k..k + |t|] == t
  }

  /** String.indexOf(t, from): the first position at or after `from` where `t` occurs, or -1. */
  function IndexOfString(s: string, t: string, from: nat): (r: int)
    ensures -1 <= r <= |s|
    ensures r >= 0 ==> from <= r && OccursAt(s, t, r)
    ensures r >= 0 ==> forall k: nat :: from <= k < r ==> !OccursAt(s, t, k)
    ensures r == -1 ==> forall k: nat :: from <= k ==> !OccursAt(s, t, k)
    decreases |s| - from
  {
    if from + |t| > |s| then -1
    else if s[from..from + |t|] == t then from
    else IndexOfString(s, t, from + 1)
  }

  /** String.lastIndexOf(c): the last position holding `c`, or -1. */
  function LastIndexOf(s: string, c: char): (r: int)
    ensures -1 <= r < |s|
    ensures r >= 0 ==> s[r] == c
  {
    if |s| == 0 then -1
    else if s[|s| - 1] == c then |s| - 1
    else LastIndexOf(s[..|s| - 1], c)
  }

  /** lastIndexOf finds the last occurrence, and -1 means there is none. */
  lemma {:induction false} LastIndexOfLast(s: string, c: char)
    ensures var r := LastIndexOf(s, c);
      (r == -1 ==> c !in s) && (r >= 0 ==> forall k :: r < k < |s| ==> s[k] != c)
  {
    if |s| > 0 && s[|s| - 1] != c {
      LastIndexOfLast(s[..|s| - 1], c);
      assert s == s[..|s| - 1] + [s[|s| - 1]];
    }
  }

  predicate StartsWith(s: string, prefix: string) { |prefix| <= |s| && s[..|prefix|] == prefix }

  predicate EndsWith(s: string, suffix: string) { |suffix| <= |s| && s[|s| - |suffix|..] == suffix }

  /** `a.compareTo(b) < 0`: the first differing character decides, and a proper prefix comes first. */
  predicate Precedes(a: string, b: string)
    decreases |a|
  {
    if a == [] then b != []
    else if b == [] then false
    else if a[0] != b[0] then a[0] < b[0]
    else Precedes(a[1..], b[1..])
  }

  /** Between strings of equal length, a last character added only counts when the rest is equal. */
  lemma {:induction false} PrecedesSnoc(a: string, b: string, x: char, y: char)
    requires |a| == |b|
    ensures Precedes(a + [x], b + [y]) <==> Precedes(a, b) || (a == b && x < y)
    decreases |a|
  {
    if a != [] {
      assert (a + [x])[1..] == a[1..] + [x];
      assert (b + [y])[1..] == b[1..] + [y];
      PrecedesSnoc(a[1..], b[1..], x, y);
      if a[0] == b[0] {
        assert a[1..] == b[1..] ==> a == b;
      }
    } else {
      assert b == [];
      assert (a + [x])[1..] == [] && (b + [y])[1..] == [];
    }
  }

  /** Every occurrence of a character of `cs` replaced by `repl`; used for the `[/$]` rewrites. */
  function ReplaceChars(s: string, cs: set<char>, repl: char): (r: string)
    ensures |r| == |s|
  {
    if s == [] then [] else ReplaceChars(s[..|s| - 1], cs, repl) + [if s[|s| - 1] in cs then repl else s[|s| - 1]]
  }

  lemma {:induction false} ReplaceCharsAt(s: string, cs: set<char>, repl: char)
    ensures forall k :: 0 <= k < |s| ==> ReplaceChars(s, cs, repl)[k] == (if s[k] in cs then repl else s[k])
  {
    if s != [] {
      ReplaceCharsAt(s[..|s| - 1], cs, repl);
    }
  }

  lemma ReplaceCharsAppend(a: string, b: string, cs: set<char>, repl: char)
    ensures ReplaceChars(a + b, cs, repl) == ReplaceChars(a, cs, repl) + ReplaceChars(b, cs, repl)
  {
    var l, r := ReplaceChars(a + b, cs, repl), ReplaceChars(a, cs, repl) + ReplaceChars(b, cs, repl);
    ReplaceCharsAt(a + b, cs, repl);
    ReplaceCharsAt(a, cs, repl);
    ReplaceCharsAt(b, cs, repl);
    assert |l| == |r|;
    forall k | 0 <= k < |l| ensures l[k] == r[k] {
      if k < |a| { assert (a + b)[k] == a[k]; } else { assert (a + b)[k] == b[k - |a|]; }
    }
  }

  /** A class name from an internal path: every `/` and `$` becomes `.` (the `[/$]` rewrite). */
  function FqnOfPath(path: string): string
  {
    ReplaceChars(path, {'/', '$'}, '.')
  }

  /** The elements of `parts` separated by `sep` (String.join, StringBuilder appends). */
  function Join(parts: seq<string>, sep: string): string
  {
    if |parts| == 0 then ""
    else if |parts| == 1 then parts[0]
    else Join(parts[..|parts| - 1], sep) + sep + parts[|parts| - 1]
  }

  // ---------------------------------------------------------------------------
  // split

  /** The pieces between occurrences of `sep`; there is always at least one. */
  function Pieces(s: string, sep: char): (r: seq<string>)
    ensures |r| >= 1
    decreases |s|
  {
    var i := IndexOf(s, sep, 0);
    if i < 0 then [s] else [s[..i]] + Pieces(s[i + 1..], sep)
  }

  lemma {:induction false} PiecesWithoutSeparator(s: string, sep: char)
    ensures forall i :: 0 <= i < |Pieces(s, sep)| ==> sep !in Pieces(s, sep)[i]
    decreases |s|
  {
    var i := IndexOf(s, sep, 0);
    IndexOfFirst(s, sep, 0);
    if i >= 0 {
      PiecesWithoutSeparator(s[i + 1..], sep);
      assert sep !in s[..i];
    }
  }

  lemma {:induction false} PiecesJoin(s: string, sep: char)
    ensures Join(Pieces(s, sep), [sep]) == s
    decreases |s|
  {
    var i := IndexOf(s, sep, 0);
    if i >= 0 {
      PiecesJoin(s[i + 1..], sep);
      JoinCons(s[..i], Pieces(s[i + 1..], sep), [sep]);
      SplitAround(s, i);
    }
  }

  /** indexOf from 0 finds the first occurrence of the character. */
  lemma {:induction false} IndexOfFirstOccurrence(s: string, c: char, i: nat)
    requires i < |s| && s[i] == c && forall k :: 0 <= k < i ==> s[k] != c
    ensures IndexOf(s, c, 0) == i
  {
    IndexOfFirst(s, c, 0);
  }

  /** Splitting a join of separator-free parts gives the parts back. */
  lemma {:induction false} PiecesOfJoin(parts: seq<string>, sep: char)
    requires |parts| >= 1 && forall k :: 0 <= k < |parts| ==> sep !in parts[k]
    ensures Pieces(Join(parts, [sep]), sep) == parts
    decreases |parts|
  {
    if |parts| == 1 {
      IndexOfFirst(parts[0], sep, 0);
      assert Join(parts, [sep]) == parts[0];
    } else {
      var x, rest := parts[0], parts[1..];
      assert parts == [x] + rest;
      JoinCons(x, rest, [sep]);
      var s := Join(parts, [sep]);
      assert s == x + [sep] + Join(rest, [sep]);
      IndexOfFirstOccurrence(s, sep, |x|);
      assert s[|x| + 1..] == Join(rest, [sep]);
      assert s[..|x|] == x;
      PiecesOfJoin(rest, sep);
    }
  }

  /** A string is what comes before position `i`, the character there, and what follows. */
  lemma {:induction false} SplitAround(s: string, i: nat)
    requires i < |s|
    ensures s[..i] + [s[i]] + s[i + 1..] == s
  {
  }

  lemma {:induction false} JoinCons(x: string, ps: seq<string>, sep: string)
    requires |ps| >= 1
    ensures Join([x] + ps, sep) == x + sep + Join(ps, sep)
    decreases |ps|
  {
    var xs := [x] + ps;
    if |ps| == 1 {
      assert xs[..1] == [x];
      assert Join(xs, sep) == Join([x], sep) + sep + ps[0];
    } else {
      var init := ps[..|ps| - 1];
      JoinCons(x, init, sep);
      assert xs[..|xs| - 1] == [x] + init;
      assert Join(xs, sep) == Join([x] + init, sep) + sep + ps[|ps| - 1];
      assert Join(ps, sep) == Join(init, sep) + sep + ps[|ps| - 1];
    }
  }

  /** Joining two non-empty lists is joining each and putting a separator between. */
  lemma {:induction false} JoinAppend(a: seq<string>, b: seq<string>, sep: string)
    requires |a| >= 1 && |b| >= 1
    ensures Join(a + b, sep) == Join(a, sep) + sep + Join(b, sep)
    decreases |b|
  {
    var ab := a + b;
    if |b| == 1 {
      assert ab[..|ab| - 1] == a;
    } else {
      var init := b[..|b| - 1];
      JoinAppend(a, init, sep);
      assert ab[..|ab| - 1] == a + init;
    }
  }

  /** A character found neither in the separator nor in any part is not in the joined string. */
  lemma {:induction false} JoinAvoids(ps: seq<string>, sep: string, c: char)
    requires c !in sep && forall k :: 0 <= k < |ps| ==> c !in ps[k]
    ensures c !in Join(ps, sep)
    decreases |ps|
  {
    if |ps| > 1 {
      JoinAvoids(ps[..|ps| - 1], sep, c);
    }
  }

  /** Every piece is made of characters of the string it was cut from. */
  lemma {:induction false} PiecesWithin(s: string, sep: char, k: nat, c: char)
    requires k < |Pieces(s, sep)| && c in Pieces(s, sep)[k]
    ensures c in s
    decreases |s|
  {
    var i := IndexOf(s, sep, 0);
    IndexOfFirst(s, sep, 0);
    if i >= 0 {
      if k == 0 {
        assert c in s[..i];
      } else {
        PiecesWithin(s[i + 1..], sep, k - 1, c);
        assert c in s[i + 1..];
      }
    }
  }

  /** A string without `/` or `$` is its own class name. */
  lemma FqnOfPathPlain(s: string)
    requires '/' !in s && '$' !in s
    ensures FqnOfPath(s) == s
  {
    ReplaceCharsAt(s, {'/', '$'}, '.');
  }

  /** Parts free of `/` and `$`, joined by either, read back as the same parts joined by dots. */
  lemma {:induction false} FqnOfPathJoin(ps: seq<string>, sep: char)
    requires sep == '/' || sep == '$'
    requires forall k :: 0 <= k < |ps| ==> '/' !in ps[k] && '$' !in ps[k]
    ensures FqnOfPath(Join(ps, [sep])) == Join(ps, ".")
    decreases |ps|
  {
    if |ps| == 1 {
      FqnOfPathPlain(ps[0]);
    } else if |ps| > 1 {
      var init, last := ps[..|ps| - 1], ps[|ps| - 1];
      FqnOfPathJoin(init, sep);
      FqnOfPathPlain(last);
      ReplaceCharsAppend(Join(init, [sep]) + [sep], last, {'/', '$'}, '.');
      ReplaceCharsAppend(Join(init, [sep]), [sep], {'/', '$'}, '.');
      ReplaceCharsAt([sep], {'/', '$'}, '.');
    }
  }

  function DropTrailingEmpty(p: seq<string>): (r: seq<string>)
    ensures |r| <= |p| && r == p[..|r|]
    ensures |r| > 0 ==> r[|r| - 1] != ""
    ensures forall k :: |r| <= k < |p| ==> p[k] == ""
  {
    if |p| > 0 && p[|p| - 1] == "" then DropTrailingEmpty(p[..|p| - 1]) else p
  }

  /** The last piece of a string that does not end with the separator is not empty. */
  lemma {:induction false} LastPieceNotEmpty(s: string, sep: char)
    requires s != "" && s[|s| - 1] != sep
    ensures Pieces(s, sep)[|Pieces(s, sep)| - 1] != ""
    decreases |s|
  {
    var i := IndexOf(s, sep, 0);
    IndexOfFirst(s, sep, 0);
    if i >= 0 {
      var t := s[i + 1..];
      assert t[|t| - 1] == s[|s| - 1];
      LastPieceNotEmpty(t, sep);
    }
  }

  /**
   * String.split with a one-character regular expression and limit 0: an
   * input without the separator gives the input itself; otherwise the pieces
   * with trailing empty strings removed (so the result may be empty).
   */
  function Split(s: string, sep: char): (r: seq<string>)
    ensures sep !in s ==> r == [s]
  {
    if sep !in s then [s] else DropTrailingEmpty(Pieces(s, sep))
  }

  /** Splitting a string that does not end with the separator drops nothing, so joining gives it back. */
  lemma SplitWhole(s: string, sep: char)
    requires s != "" && s[|s| - 1] != sep
    ensures Split(s, sep) == Pieces(s, sep) && Join(Split(s, sep), [sep]) == s
  {
    LastPieceNotEmpty(s, sep);
    PiecesJoin(s, sep);
  }

  lemma SplitPieces(s: string, sep: char)
    ensures Split(s, sep) == Pieces(s, sep)[..|Split(s, sep)|]
    ensures forall k :: |Split(s, sep)| <= k < |Pieces(s, sep)| ==> Pieces(s, sep)[k] == ""
  {
    if sep !in s {
      IndexOfFirst(s, sep, 0);
      assert IndexOf(s, sep, 0) == -1;
    }
  }

  lemma {:induction false} PieceLength(s: string, sep: char, k: nat)
    requires k < |Pieces(s, sep)|
    ensures |Pieces(s, sep)[k]| <= |s|
    ensures sep in s ==> |Pieces(s, sep)[k]| < |s|
    decreases |s|
  {
    var i := IndexOf(s, sep, 0);
    IndexOfFirst(s, sep, 0);
    if i >= 0 && k > 0 {
      PieceLength(s[i + 1..], sep, k - 1);
    }
  }

  /** The regular-expression class `\s`: space, tab, line feed, vertical tab, form feed, carriage return. */
  predicate IsSpace(c: char)
  {
    c == ' ' || c == '\t' || c == '\n' || c == 11 as char || c == 12 as char || c == '\r'
  }

  /** Java's `trim`: leading and trailing characters up to U+0020 removed. */
  function Trim(s: string): (r: string)
    ensures |r| <= |s|
    ensures |r| > 0 ==> r[0] > ' ' && r[|r| - 1] > ' '
    decreases |s|
  {
    if |s| > 0 && s[0] <= ' ' then Trim(s[1..])
    else if |s| > 0 && s[|s| - 1] <= ' ' then Trim(s[..|s| - 1])
    else s
  }

  // ---------------------------------------------------------------------------
  // decimal numbers

  predicate IsDigit(c: char) { '0' <= c <= '9' }

  function DigitChar(d: nat): char requires d < 10 { (('0' as int) + d) as char }

  function DigitValue(c: char): nat requires IsDigit(c) { (c as int) - ('0' as int) }

  /** The decimal digits of `n`, without leading zeros. */
  function Digits(n: nat): (r: string)
    ensures |r| >= 1 && forall k :: 0 <= k < |r| ==> IsDigit(r[k])
    ensures (n == 0) <==> (r == "0")
    ensures r[0] == '0' ==> n == 0
  {
    if n < 10 then [DigitChar(n)] else Digits(n / 10) + [DigitChar(n % 10)]
  }

  /** The value of a string of decimal digits. */
  function DigitsValue(s: string): nat
    requires forall k :: 0 <= k < |s| ==> IsDigit(s[k])
  {
    if s == [] then 0 else 10 * DigitsValue(s[..|s| - 1]) + DigitValue(s[|s| - 1])
  }

  lemma {:induction false} DigitsRoundTrip(n: nat)
    ensures DigitsValue(Digits(n)) == n
  {
    if n >= 10 {
      DigitsRoundTrip(n / 10);
      var d := Digits(n);
      assert d[..|d| - 1] == Digits(n / 10);
    }
  }

  /** Digit strings of equal length are ordered as their values: in string order, leading zeros included. */
  lemma {:induction false} DigitsOrder(a: string, b: string)
    requires |a| == |b|
    requires forall k :: 0 <= k < |a| ==> IsDigit(a[k])
    requires forall k :: 0 <= k < |b| ==> IsDigit(b[k])
    ensures Precedes(a, b) <==> DigitsValue(a) < DigitsValue(b)
    ensures a == b <==> DigitsValue(a) == DigitsValue(b)
    decreases |a|
  {
    if a != [] {
      var a', b' := a[..|a| - 1], b[..|b| - 1];
      var x, y := a[|a| - 1], b[|b| - 1];
      DigitsOrder(a', b');
      PrecedesSnoc(a', b', x, y);
      assert a == a' + [x] && b == b' + [y];
      assert IsDigit(x) && IsDigit(y);
    } else {
      assert b == [];
    }
  }

  /** Integer.toString for a value of any size. */
  function IntToString(i: int): (r: string)
    ensures |r| >= 1
  {
    if i < 0 then "-" + Digits(-i) else Digits(i)
  }

  /**
   * Integer.parseInt(s) restricted to ASCII digits: an optional sign followed
   * by at least one digit, with the value inside the 32-bit range.
   */
  function ParseInt(s: string): (r: Option<int>)
    ensures r.Some? ==> IsInt32(r.value)
    ensures r.Some? ==> |s| >= 1
  {
    var negative := |s| > 0 && s[0] == '-';
    var body := if |s| > 0 && (s[0] == '-' || s[0] == '+') then s[1..] else s;
    if |body| == 0 || !(forall k :: 0 <= k < |body| ==> IsDigit(body[k])) then None
    else
      var m: int := DigitsValue(body);
      var v := if negative then 0 - m else m;
      if IsInt32(v) then Some(v) else None
  }

  /** parseInt inverts toString on every 32-bit value. */
  lemma ParseIntToString(i: int)
    requires IsInt32(i)
    ensures ParseInt(IntToString(i)) == Some(i)
  {
    if i < 0 {
      DigitsRoundTrip(-i);
      ParseIntNegative(Digits(-i));
    } else {
      DigitsRoundTrip(i);
      ParseIntPlain(Digits(i));
    }
  }

  lemma ParseIntNegative(d: string)
    requires d != [] && forall k :: 0 <= k < |d| ==> IsDigit(d[k])
    requires IsInt32(0 - DigitsValue(d))
    ensures ParseInt("-" + d) == Some(0 - DigitsValue(d))
  {
    var s := "-" + d;
    assert s[0] == '-' && s[1..] == d;
    assert forall k :: 0 <= k < |s[1..]| ==> IsDigit(s[1..][k]);
  }

  lemma ParseIntPlain(d: string)
    requires d != [] && forall k :: 0 <= k < |d| ==> IsDigit(d[k])
    requires IsInt32(DigitsValue(d))
    ensures ParseInt(d) == Some(DigitsValue(d))
  {
    assert IsDigit(d[0]);
  }
}
