/** String primitives with the exact behaviour of the JavaScript and Python
    built-ins the application uses: white-space classes, trimming, splitting
    on one character, joining, substring search, ASCII lower-casing and the
    decimal rendering of a natural number. */
module Text {

  /** White space as JavaScript's `String.prototype.trim` and the regular
      expression class `\s` define it (ECMAScript WhiteSpace and
      LineTerminator code points). */
  predicate IsJsSpace(c: char) {
    || '\t' <= c <= '\r'
    || c == ' ' || c == '\U{00A0}' || c == '\U{1680}'
    || '\U{2000}' <= c <= '\U{200A}'
    || c == '\U{2028}' || c == '\U{2029}' || c == '\U{202F}' || c == '\U{205F}'
    || c == '\U{3000}' || c == '\U{FEFF}'
  }

  /** White space as Python's `str.isspace`, `str.strip` and the `\s` class of
      a `str` pattern define it. */
  predicate IsPySpace(c: char) {
    || '\t' <= c <= '\r'
    || '\U{001C}' <= c <= ' '
    || c == '\U{0085}' || c == '\U{00A0}' || c == '\U{1680}'
    || '\U{2000}' <= c <= '\U{200A}'
    || c == '\U{2028}' || c == '\U{2029}' || c == '\U{202F}' || c == '\U{205F}'
    || c == '\U{3000}'
  }

  predicate IsAsciiDigit(c: char) { '0' <= c <= '9' }

  predicate IsAsciiUpper(c: char) { 'A' <= c <= 'Z' }

  predicate IsAsciiLower(c: char) { 'a' <= c <= 'z' }

  /** Drops the white space (in the sense of `isSpace`) at the front of `s`. */
  function TrimStart(s: string, isSpace: char -> bool): (r: string)
    ensures |r| <= |s| && r == s[|s| - |r|..]
    ensures forall i :: 0 <= i < |s| - |r| ==> isSpace(s[i])
    ensures r == [] || !isSpace(r[0])
    decreases |s|
  {
    if s != [] && isSpace(s[0]) then TrimStart(s[1..], isSpace) else s
  }

  /** Drops the white space (in the sense of `isSpace`) at the end of `s`. */
  function TrimEnd(s: string, isSpace: char -> bool): (r: string)
    ensures |r| <= |s| && r == s[..|r|]
    ensures forall i :: |r| <= i < |s| ==> isSpace(s[i])
    ensures r == [] || !isSpace(r[|r| - 1])
    decreases |s|
  {
    if s != [] && isSpace(s[|s| - 1]) then TrimEnd(s[..|s| - 1], isSpace) else s
  }

  /** Both ends trimmed: neither end of the result is white space. */
  function Trim(s: string, isSpace: char -> bool): (r: string)
    ensures |r| <= |s|
    ensures r == [] || (!isSpace(r[0]) && !isSpace(r[|r| - 1]))
  {
    TrimEnd(TrimStart(s, isSpace), isSpace)
  }

  /** What trimming removes: the result is the slice `s[a..b]` left once all
      leading and all trailing white space is gone. */
  lemma TrimIsSlice(s: string, isSpace: char -> bool) returns (a: nat, b: nat)
    ensures a <= b <= |s| && Trim(s, isSpace) == s[a..b]
    ensures forall i :: 0 <= i < a ==> isSpace(s[i])
    ensures forall i :: b <= i < |s| ==> isSpace(s[i])
  {
    var t := TrimStart(s, isSpace);
    var r := TrimEnd(t, isSpace);
    a, b := |s| - |t|, |s| - |t| + |r|;
    assert r == s[a..b];
  }

  /** Trimming keeps only characters of the original. */
  lemma TrimChars(s: string, isSpace: char -> bool)
    ensures forall i :: 0 <= i < |Trim(s, isSpace)| ==> Trim(s, isSpace)[i] in s
  {
    var a, b := TrimIsSlice(s, isSpace);
    forall i | 0 <= i < b - a ensures s[a..b][i] in s {
      assert s[a..b][i] == s[a + i];
    }
  }

  /** JavaScript `s.trim()`. */
  function TrimJs(s: string): string { Trim(s, IsJsSpace) }

  /** Python `s.strip()`. */
  function StripPy(s: string): string { Trim(s, IsPySpace) }

  /** A string that trimming leaves unchanged. */
  predicate IsTrimmedJs(s: string) {
    s == [] || (!IsJsSpace(s[0]) && !IsJsSpace(s[|s| - 1]))
  }

  lemma TrimOfTrimmed(s: string, isSpace: char -> bool)
    requires s == [] || (!isSpace(s[0]) && !isSpace(s[|s| - 1]))
    ensures Trim(s, isSpace) == s
  {
  }

  /** JavaScript `s.split(sep)` and Python `s.split(sep)` for a one-character
      separator: the maximal separator-free pieces, empty ones included. */
  function Split(s: string, sep: char): (parts: seq<string>)
    ensures |parts| >= 1
    ensures forall i :: 0 <= i < |parts| ==> sep !in parts[i]
    decreases |s|
  {
    if s == [] then [[]]
    else
      var rest := Split(s[1..], sep);
      if s[0] == sep then [[]] + rest else [[s[0]] + rest[0]] + rest[1..]
  }

  /** JavaScript `parts.join(sep)` (the empty array joins to ""). */
  function Join(parts: seq<string>, sep: string): string
    decreases |parts|
  {
    if parts == [] then []
    else if |parts| == 1 then parts[0]
    else parts[0] + sep + Join(parts[1..], sep)
  }

  /** The last piece of a split (JavaScript `s.split(sep).pop()`). */
  function LastPiece(s: string, sep: char): (r: string)
    ensures sep !in r
  {
    var parts := Split(s, sep);
    parts[|parts| - 1]
  }

  /** A piece free of the separator is split into itself. */
  lemma {:induction false} SplitNoSeparator(s: string, sep: char)
    requires sep !in s
    ensures Split(s, sep) == [s]
    decreases |s|
  {
    if s != [] {
      SplitNoSeparator(s[1..], sep);
      assert [s[0]] + s[1..] == s;
    }
  }

  /** Splitting at the first separator. */
  lemma {:induction false} SplitAtSeparator(a: string, sep: char, b: string)
    requires sep !in a
    ensures Split(a + [sep] + b, sep) == [a] + Split(b, sep)
    decreases |a|
  {
    var s := a + [sep] + b;
    if a == [] {
      assert s[1..] == b;
    } else {
      assert s[1..] == a[1..] + [sep] + b;
      SplitAtSeparator(a[1..], sep, b);
      assert [a[0]] + a[1..] == a;
    }
  }

  /** Splitting at the last separator: the piece after it is the last part. */
  lemma {:induction false} SplitAtLastSeparator(a: string, sep: char, b: string)
    requires sep !in b
    ensures Split(a + [sep] + b, sep) == Split(a, sep) + [b]
    decreases |a|
  {
    var s := a + [sep] + b;
    if a == [] {
      assert s[1..] == b;
      SplitNoSeparator(b, sep);
    } else {
      assert s[1..] == a[1..] + [sep] + b;
      SplitAtLastSeparator(a[1..], sep, b);
    }
  }

  /** Split undoes Join when no piece holds the separator. */
  lemma {:induction false} SplitJoin(parts: seq<string>, sep: char)
    requires |parts| >= 1
    requires forall i :: 0 <= i < |parts| ==> sep !in parts[i]
    ensures Split(Join(parts, [sep]), sep) == parts
    decreases |parts|
  {
    if |parts| == 1 {
      SplitNoSeparator(parts[0], sep);
    } else {
      SplitJoin(parts[1..], sep);
      SplitAtSeparator(parts[0], sep, Join(parts[1..], [sep]));
      assert [parts[0]] + parts[1..] == parts;
    }
  }

  /** Join undoes Split: no character of the text is lost or added. */
  lemma {:induction false} JoinSplit(s: string, sep: char)
    ensures Join(Split(s, sep), [sep]) == s
    decreases |s|
  {
    if s != [] {
      JoinSplit(s[1..], sep);
      var rest := Split(s[1..], sep);
      if s[0] != sep {
        if |rest| > 1 {
          assert [rest[0]] + rest[1..] == rest;
        }
        assert [s[0]] + s[1..] == s;
      } else {
        assert [sep] + s[1..] == s;
      }
    }
  }

  /** `needle` occurs at the very start of `hay`. */
  predicate StartsWith(hay: string, needle: string) {
    |needle| <= |hay| && hay[..|needle|] == needle
  }

  /** JavaScript `hay.includes(needle)` and Python `needle in hay`. */
  predicate Contains(hay: string, needle: string)
    decreases |hay|
  {
    StartsWith(hay, needle) || (hay != [] && Contains(hay[1..], needle))
  }

  /** `needle` occurs in `hay` starting at position `i`. */
  predicate OccursAt(hay: string, needle: string, i: int) {
    0 <= i && i + |needle| <= |hay| && hay[i..i + |needle|] == needle
  }

  /** `Contains` means an occurrence at some position. */
  lemma {:induction false} ContainsAt(hay: string, needle: string)
    ensures Contains(hay, needle) <==> exists i :: OccursAt(hay, needle, i)
    decreases |hay|
  {
    if hay == [] {
      if Contains(hay, needle) {
        assert OccursAt(hay, needle, 0);
      }
      if exists i :: OccursAt(hay, needle, i) {
        var i :| OccursAt(hay, needle, i);
        assert |needle| == 0 && needle == [] && hay[..0] == needle;
      }
    } else {
      ContainsAt(hay[1..], needle);
      if Contains(hay, needle) {
        if StartsWith(hay, needle) {
          assert OccursAt(hay, needle, 0);
        } else {
          var i :| OccursAt(hay[1..], needle, i);
          assert hay[1..][i..i + |needle|] == hay[i + 1..i + 1 + |needle|];
          assert OccursAt(hay, needle, i + 1);
        }
      }
      forall i | OccursAt(hay, needle, i)
        ensures Contains(hay, needle)
      {
        if i == 0 {
          assert StartsWith(hay, needle);
        } else {
          assert hay[1..][i - 1..i - 1 + |needle|] == hay[i..i + |needle|];
          assert OccursAt(hay[1..], needle, i - 1);
        }
      }
    }
  }

  /** An occurrence in a suffix is an occurrence in the whole string. */
  lemma {:induction false} ContainsInSuffix(hay: string, k: nat, needle: string)
    requires k <= |hay| && Contains(hay[k..], needle)
    ensures Contains(hay, needle)
    decreases k
  {
    if k == 0 {
      assert hay[k..] == hay;
    } else {
      assert hay[1..][k - 1..] == hay[k..];
      ContainsInSuffix(hay[1..], k - 1, needle);
    }
  }

  /** Wherever a needle occurs, so does each of its prefixes. */
  lemma ContainsNeedlePrefix(hay: string, prefix: string, rest: string)
    requires Contains(hay, prefix + rest)
    ensures Contains(hay, prefix)
  {
    ContainsAt(hay, prefix + rest);
    ContainsAt(hay, prefix);
    var i :| OccursAt(hay, prefix + rest, i);
    assert hay[i..i + |prefix|] == (prefix + rest)[..|prefix|];
    assert OccursAt(hay, prefix, i);
  }

  /** A needle with a character the text lacks does not occur in it. */
  lemma {:induction false} NotContainsMissingChar(hay: string, needle: string, k: nat)
    requires k < |needle| && needle[k] !in hay
    ensures !Contains(hay, needle)
    decreases |hay|
  {
    if hay != [] {
      NotContainsMissingChar(hay[1..], needle, k);
    }
  }

  /** An occurrence in `a + b` whose first character is absent from `a` lies in `b`. */
  lemma {:induction false} ContainsSkipPrefix(a: string, b: string, needle: string)
    requires needle != [] && needle[0] !in a
    requires Contains(a + b, needle)
    ensures Contains(b, needle)
    decreases |a|
  {
    if a != [] {
      assert (a + b)[0] == a[0];
      assert (a + b)[1..] == a[1..] + b;
      ContainsSkipPrefix(a[1..], b, needle);
    } else {
      assert a + b == b;
    }
  }

  /** Trimming a string with no white space at either end changes nothing. */
  lemma TrimJsOfTrimmed(s: string)
    requires IsTrimmedJs(s)
    ensures TrimJs(s) == s
  {
  }

  /** Trimming removes a single leading blank in front of a trimmed string. */
  lemma TrimJsLeadingBlank(s: string)
    requires IsTrimmedJs(s)
    ensures TrimJs(" " + s) == s
  {
    assert (" " + s)[1..] == s;
    assert TrimStart(" " + s, IsJsSpace) == TrimStart(s, IsJsSpace);
  }

  /** ASCII lower-casing of one character; other characters are unchanged. */
  function LowerChar(c: char): char {
    if IsAsciiUpper(c) then (c as int + 32) as char else c
  }

  /** `s.toLowerCase()` / `s.lower()` restricted to ASCII letters. */
  function ToLower(s: string): (r: string)
    ensures |r| == |s|
    ensures forall i :: 0 <= i < |s| ==> r[i] == LowerChar(s[i])
  {
    seq(|s|, i requires 0 <= i < |s| => LowerChar(s[i]))
  }

  /** A lower-case letter is missing from the lower-cased text when neither
      case of it occurs in the original. */
  lemma LowerCaseMissing(s: string, c: char)
    requires IsAsciiLower(c) && c !in s && (c as int - 32) as char !in s
    ensures c !in ToLower(s)
  {
  }

  lemma ToLowerAppend(a: string, b: string)
    ensures ToLower(a + b) == ToLower(a) + ToLower(b)
  {
  }

  /** The digit character of a value below ten. */
  function DigitChar(d: nat): (c: char)
    requires d < 10
    ensures IsAsciiDigit(c)
  {
    ('0' as int + d) as char
  }

  /** The value of a digit character. */
  function DigitValue(c: char): (d: nat)
    requires IsAsciiDigit(c)
    ensures d < 10 && DigitChar(d) == c
  {
    c as int - '0' as int
  }

  /** The value of a string of decimal digits. */
  function DecimalValue(s: string): nat
    requires forall i :: 0 <= i < |s| ==> IsAsciiDigit(s[i])
    decreases |s|
  {
    if s == [] then 0 else 10 * DecimalValue(s[..|s| - 1]) + DigitValue(s[|s| - 1])
  }

  /** JavaScript's rendering of a natural number in a template literal:
      decimal digits without leading zeros. */
  function NatToString(n: nat): (r: string)
    ensures r != []
    ensures forall i :: 0 <= i < |r| ==> IsAsciiDigit(r[i])
    ensures |r| > 1 ==> r[0] != '0'
  {
    if n < 10 then [DigitChar(n)] else NatToString(n / 10) + [DigitChar(n % 10)]
  }

  /** Reading the rendered digits back gives the number. */
  lemma {:induction false} NatToStringValue(n: nat)
    ensures DecimalValue(NatToString(n)) == n
  {
    if n >= 10 {
      NatToStringValue(n / 10);
      var r := NatToString(n);
      assert r[..|r| - 1] == NatToString(n / 10);
    }
  }
}
