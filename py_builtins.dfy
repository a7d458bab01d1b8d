/** The Python built-in string and integer operations the bot is written with:
    `str.find`, `str.rfind`, `str.split`, `str.join`, `str(int)` and `int(str)` in base 10
    (with the whitespace `int()` skips), stated over Dafny strings. */
module PyBuiltins {

  datatype Option<+T> = None | Some(value: T)

  datatype Result<+T, +E> = Ok(value: T) | Err(error: E)

  // ---------------------------------------------------------------------------
  // Searching

  /** `sub` occurs in `s` starting at index `i`. */
  predicate OccursAt(s: string, sub: string, i: int) {
    0 <= i && i + |sub| <= |s| && s[i..i + |sub|] == sub
  }

  /** Python's `sub in s`. */
  predicate Contains(s: string, sub: string) {
    exists i :: 0 <= i <= |s| && OccursAt(s, sub, i)
  }

  /** Python's `s.find(sub, start)` for a non-empty `sub`: the lowest index at or after
      `start` where `sub` occurs, or -1. */
  function FindFrom(s: string, sub: string, start: nat): (r: int)
    requires |sub| > 0
    ensures r == -1 || (start <= r && OccursAt(s, sub, r))
    ensures forall i :: start <= i && (r == -1 || i < r) ==> !OccursAt(s, sub, i)
    decreases |s| - start
  {
    if start + |sub| > |s| then -1
    else if s[start..start + |sub|] == sub then start
    else FindFrom(s, sub, start + 1)
  }

  /** Python's `s.find(c, start)` for a single character. */
  function FindChar(s: string, c: char, start: nat): (r: int)
    ensures r == -1 || (start <= r < |s| && s[r] == c)
    ensures forall i :: start <= i < |s| && (r == -1 || i < r) ==> s[i] != c
    decreases |s| - start
  {
    if start >= |s| then -1
    else if s[start] == c then start
    else FindChar(s, c, start + 1)
  }

  /** Python's `s.rfind(c)`: the highest index holding `c`, or -1. */
  function RFindChar(s: string, c: char): (r: int)
    ensures -1 <= r < |s|
    ensures r >= 0 ==> s[r] == c
    ensures forall i :: r < i < |s| ==> s[i] != c
  {
    if |s| == 0 then -1
    else if s[|s| - 1] == c then |s| - 1
    else RFindChar(s[..|s| - 1], c)
  }

  // ---------------------------------------------------------------------------
  // Splitting and joining

  /** Python's `sep.join(parts)`. */
  function Join(parts: seq<string>, sep: string): string
  {
    if |parts| == 0 then ""
    else if |parts| == 1 then parts[0]
    else parts[0] + sep + Join(parts[1..], sep)
  }

  /** Python's `s.split(sep)` for a non-empty separator: cut at every occurrence of `sep`,
      scanning left to right without overlaps. */
  function Split(s: string, sep: string): (parts: seq<string>)
    requires |sep| > 0
    ensures |parts| >= 1
    decreases |s|
  {
    var i := FindFrom(s, sep, 0);
    if i < 0 then [s] else [s[..i]] + Split(s[i + |sep|..], sep)
  }

  /** Appending one more part to a join adds one separator and that part. */
  lemma {:induction false} JoinSnoc(parts: seq<string>, last: string, sep: string)
    ensures Join(parts + [last], sep) == if |parts| == 0 then last else Join(parts, sep) + sep + last
  {
    if |parts| > 1 {
      assert (parts + [last])[1..] == parts[1..] + [last];
      JoinSnoc(parts[1..], last, sep);
    }
  }

  /** An occurrence inside a slice is an occurrence in the whole string. */
  lemma OccursInSlice(s: string, lo: nat, hi: nat, sub: string, j: int)
    requires lo <= hi <= |s|
    ensures OccursAt(s[lo..hi], sub, j) ==> OccursAt(s, sub, lo + j)
  {
    if OccursAt(s[lo..hi], sub, j) {
      forall k | 0 <= k < |sub| ensures s[lo + j..lo + j + |sub|][k] == sub[k] {
        assert s[lo..hi][j..j + |sub|][k] == sub[k];
      }
    }
  }

  /** Joining the parts of a split with the same separator gives back the string. */
  lemma {:induction false} SplitJoin(s: string, sep: string)
    requires |sep| > 0
    ensures Join(Split(s, sep), sep) == s
    decreases |s|
  {
    var i := FindFrom(s, sep, 0);
    if i >= 0 {
      var rest := s[i + |sep|..];
      var tail := Split(rest, sep);
      SplitJoin(rest, sep);
      var parts := [s[..i]] + tail;
      assert Split(s, sep) == parts;
      assert parts[1..] == tail;
      assert Join(parts, sep) == s[..i] + sep + rest;
      assert s[..i] + s[i..i + |sep|] + rest == s;
    }
  }

  /** The text before the first occurrence of the separator does not contain it. */
  lemma BeforeFirstIsFree(s: string, sep: string)
    requires |sep| > 0 && FindFrom(s, sep, 0) >= 0
    ensures !Contains(s[..FindFrom(s, sep, 0)], sep)
  {
    var i := FindFrom(s, sep, 0);
    forall j | 0 <= j <= i && OccursAt(s[..i], sep, j) ensures false {
      OccursInSlice(s, 0, i, sep, j);
    }
  }

  /** No part of a split contains the separator. */
  lemma {:induction false} SplitPartsAreFree(s: string, sep: string)
    requires |sep| > 0
    ensures forall k :: 0 <= k < |Split(s, sep)| ==> !Contains(Split(s, sep)[k], sep)
    decreases |s|
  {
    var i := FindFrom(s, sep, 0);
    if i >= 0 {
      var rest := s[i + |sep|..];
      SplitPartsAreFree(rest, sep);
      BeforeFirstIsFree(s, sep);
      var parts := Split(s, sep);
      assert parts == [s[..i]] + Split(rest, sep);
      forall k | 0 <= k < |parts| ensures !Contains(parts[k], sep) {
        if k > 0 { assert parts[k] == Split(rest, sep)[k - 1]; }
      }
    } else {
      assert Split(s, sep) == [s];
      forall j | 0 <= j <= |s| && OccursAt(s, sep, j) ensures false { }
    }
  }

  /** A string containing the separator splits into at least two parts. */
  lemma SplitOfContaining(s: string, sep: string)
    requires |sep| > 0 && Contains(s, sep)
    ensures |Split(s, sep)| >= 2
  {
    var j :| 0 <= j <= |s| && OccursAt(s, sep, j);
    assert FindFrom(s, sep, 0) >= 0;
  }

  /** A string free of the separator is its own only part. */
  lemma SplitOfFree(s: string, sep: string)
    requires |sep| > 0 && !Contains(s, sep)
    ensures Split(s, sep) == [s]
  {
    var i := FindFrom(s, sep, 0);
    assert !(0 <= i <= |s| && OccursAt(s, sep, i));
  }

  /** Around a join point free of `", "` on its left, `find` stops at the join point. */
  lemma FindAtCommaSpace(a: string, b: string)
    requires !Contains(a, ", ")
    ensures FindFrom(a + ", " + b, ", ", 0) == |a|
  {
    var sep := ", ";
    var s := a + sep + b;
    var i := FindFrom(s, sep, 0);
    assert s[|a|..|a| + 2] == sep;
    assert OccursAt(s, sep, |a|);
    forall j | 0 <= j < |a| ensures !OccursAt(s, sep, j) {
      if j + 2 <= |a| {
        assert s[j..j + 2] == a[j..j + 2];
        assert OccursAt(s, sep, j) == OccursAt(a, sep, j);
      } else {
        assert s[j..j + 2][1] == s[j + 1] == ',';
      }
    }
  }

  lemma SplitAroundFree(a: string, b: string)
    requires !Contains(a, ", ") && !Contains(b, ", ")
    ensures Split(a + ", " + b, ", ") == [a, b]
  {
    var s := a + ", " + b;
    FindAtCommaSpace(a, b);
    assert s[..|a|] == a;
    assert s[|a| + 2..] == b;
    SplitOfFree(b, ", ");
  }

  /** An occurrence stays an occurrence when text is appended. */
  lemma OccursExtend(a: string, x: string, sub: string, j: int)
    requires OccursAt(a, sub, j)
    ensures OccursAt(a + x, sub, j)
  {
    assert (a + x)[j..j + |sub|] == a[j..j + |sub|];
  }

  /** An occurrence at or after `lo` is one in the suffix from `lo`. */
  lemma OccursShift(s: string, lo: nat, sub: string, j: int)
    requires lo <= j && OccursAt(s, sub, j)
    ensures OccursAt(s[lo..], sub, j - lo)
  {
    assert s[lo..][j - lo..j - lo + |sub|] == s[j..j + |sub|];
  }

  /** The separator occurs at the join point. */
  lemma OccursAtJoinPoint(a: string, sep: string, b: string)
    ensures OccursAt(a + sep + b, sep, |a|)
  {
    assert (a + sep + b)[|a|..|a| + |sep|] == sep;
  }

  /** `find` stops at or before any occurrence. */
  lemma FindFromAtMost(s: string, sep: string, j: nat)
    requires |sep| > 0 && OccursAt(s, sep, j)
    ensures 0 <= FindFrom(s, sep, 0) <= j
  {
  }

  /** An occurrence at or after `lo` lies in the suffix from `lo`. */
  lemma ContainsSuffix(s: string, sep: string, lo: nat, k: nat)
    requires |sep| > 0 && lo <= k && OccursAt(s, sep, k)
    ensures Contains(s[lo..], sep)
  {
    OccursShift(s, lo, sep, k);
  }

  /** A split that finds the separator has one part more than the split of what follows it. */
  lemma SplitStepLength(s: string, sep: string)
    requires |sep| > 0 && FindFrom(s, sep, 0) >= 0
    ensures |Split(s, sep)| == 1 + |Split(s[FindFrom(s, sep, 0) + |sep|..], sep)|
  {
  }

  /** Two separate occurrences of the separator give at least three parts. */
  lemma SplitOfTwoOccurrences(s: string, sep: string, j: nat, k: nat)
    requires |sep| > 0 && j + |sep| <= k
    requires OccursAt(s, sep, j) && OccursAt(s, sep, k)
    ensures |Split(s, sep)| >= 3
  {
    FindFromAtMost(s, sep, j);
    var i := FindFrom(s, sep, 0);
    ContainsSuffix(s, sep, i + |sep|, k);
    SplitOfContaining(s[i + |sep|..], sep);
    SplitStepLength(s, sep);
  }

  /** A separator inside `a` and another after it give at least three parts. */
  lemma SplitAroundContaining(a: string, b: string)
    requires Contains(a, ", ")
    ensures |Split(a + ", " + b, ", ")| >= 3
  {
    var j :| 0 <= j <= |a| && OccursAt(a, ", ", j);
    OccursExtend(a, ", " + b, ", ", j);
    assert a + (", " + b) == a + ", " + b;
    OccursAtJoinPoint(a, ", ", b);
    SplitOfTwoOccurrences(a + ", " + b, ", ", j, |a|);
  }

  /** `(a + ", " + b).split(", ")` is `[a, b]` exactly when neither side contains `", "`;
      a separator inside `a` yields at least three parts. */
  lemma SplitAroundCommaSpace(a: string, b: string)
    ensures !Contains(a, ", ") && !Contains(b, ", ") ==> Split(a + ", " + b, ", ") == [a, b]
    ensures Contains(a, ", ") ==> |Split(a + ", " + b, ", ")| >= 3
  {
    if !Contains(a, ", ") && !Contains(b, ", ") {
      SplitAroundFree(a, b);
    }
    if Contains(a, ", ") {
      SplitAroundContaining(a, b);
    }
  }

  /** A one-character separator occurs exactly where that character is. */
  lemma OccursAtChar(s: string, c: char, i: int)
    ensures OccursAt(s, [c], i) <==> 0 <= i < |s| && s[i] == c
  {
    if 0 <= i < |s| {
      assert s[i..i + 1] == [s[i]];
    }
  }

  /** A string without the character `c` does not contain `[c]`. */
  lemma CharFreeNotContains(s: string, c: char)
    requires c !in s
    ensures !Contains(s, [c])
  {
    forall j | 0 <= j <= |s| ensures !OccursAt(s, [c], j) {
      OccursAtChar(s, c, j);
    }
  }

  /** The first occurrence of a character is where `find` finds it. */
  lemma FindFromFirstChar(s: string, c: char, n: nat)
    requires n < |s| && s[n] == c
    requires forall j :: 0 <= j < n ==> s[j] != c
    ensures FindFrom(s, [c], 0) == n
  {
    var i := FindFrom(s, [c], 0);
    OccursAtChar(s, c, n);
    if i != -1 {
      OccursAtChar(s, c, i);
    }
  }

  /** Splitting a join on a one-character separator that no part holds gives back the parts. */
  lemma {:induction false} SplitOfJoin(parts: seq<string>, c: char)
    requires |parts| > 0
    requires forall k :: 0 <= k < |parts| ==> c !in parts[k]
    ensures Split(Join(parts, [c]), [c]) == parts
    decreases |parts|
  {
    var p0 := parts[0];
    if |parts| == 1 {
      CharFreeNotContains(p0, c);
      SplitOfFree(p0, [c]);
    } else {
      var rest := Join(parts[1..], [c]);
      var s := p0 + [c] + rest;
      assert Join(parts, [c]) == s;
      forall j | 0 <= j < |p0| ensures s[j] != c {
        assert s[j] == p0[j];
      }
      FindFromFirstChar(s, c, |p0|);
      assert s[..|p0|] == p0;
      assert s[|p0| + 1..] == rest;
      SplitOfJoin(parts[1..], c);
      assert parts == [p0] + parts[1..];
    }
  }

  // ---------------------------------------------------------------------------
  // Whitespace

  /** The characters `int()` skips around a literal. CPython first turns every non-ASCII
      character for which `str.isspace()` holds into a space, leaves ASCII characters as
      they are, and then skips only tab, line feed, vertical tab, form feed, carriage
      return and space; so the ASCII separators U+001C to U+001F, which `str.isspace()`
      accepts, are not skipped. */
  predicate IsIntWhitespace(c: char) {
    var n := c as int;
    (9 <= n <= 13) || n == 0x20 || n == 0x85 || n == 0xA0 || n == 0x1680
    || (0x2000 <= n <= 0x200A) || n == 0x2028 || n == 0x2029 || n == 0x202F
    || n == 0x205F || n == 0x3000
  }

  function LStrip(s: string): (t: string)
    ensures |t| <= |s|
    ensures |t| > 0 ==> !IsIntWhitespace(t[0])
  {
    if |s| > 0 && IsIntWhitespace(s[0]) then LStrip(s[1..]) else s
  }

  function RStrip(s: string): (t: string)
    ensures |t| <= |s|
    ensures |t| > 0 ==> !IsIntWhitespace(t[|t| - 1])
  {
    if |s| > 0 && IsIntWhitespace(s[|s| - 1]) then RStrip(s[..|s| - 1]) else s
  }

  /** The whitespace `int()` removes from both ends of its argument. */
  function Strip(s: string): string {
    RStrip(LStrip(s))
  }

  // ---------------------------------------------------------------------------
  // Decimal integers

  predicate IsDigit(c: char) { '0' <= c <= '9' }

  function DigitChar(d: int): (c: char)
    requires 0 <= d < 10
    ensures IsDigit(c)
  {
    (('0' as int) + d) as char
  }

  /** The decimal digits of a natural number, without leading zeros. */
  function NatToDecimal(n: nat): (s: string)
    ensures |s| >= 1 && forall i :: 0 <= i < |s| ==> IsDigit(s[i])
  {
    if n < 10 then [DigitChar(n)] else NatToDecimal(n / 10) + [DigitChar(n % 10)]
  }

  /** Python's `str(i)` (equally `f'{i}'`) for an integer. */
  function IntToString(i: int): (r: string)
    ensures |r| >= 1 && (r[0] == '-' <==> i < 0)
    ensures forall k :: 0 < k < |r| ==> IsDigit(r[k])
    ensures i >= 0 ==> IsDigit(r[0])
  {
    if i < 0 then "-" + NatToDecimal(-i) else NatToDecimal(i)
  }

  /** The value of a string of decimal digits. */
  function DigitsValue(d: string): nat
    requires forall i :: 0 <= i < |d| ==> IsDigit(d[i])
  {
    if |d| == 0 then 0
    else
      assert IsDigit(d[|d| - 1]);
      DigitsValue(d[..|d| - 1]) * 10 + (d[|d| - 1] as int - '0' as int)
  }

  /** The body of an `int()` literal: digits, with single underscores allowed between digits. */
  predicate IsDigitBody(b: string) {
    && |b| > 0
    && IsDigit(b[0])
    && IsDigit(b[|b| - 1])
    && (forall i :: 0 <= i < |b| ==> IsDigit(b[i]) || b[i] == '_')
    && !Contains(b, "__")
  }

  function DropUnderscores(b: string): (d: string)
    requires forall i :: 0 <= i < |b| ==> IsDigit(b[i]) || b[i] == '_'
    ensures forall i :: 0 <= i < |d| ==> IsDigit(d[i])
  {
    if |b| == 0 then ""
    else if b[0] == '_' then DropUnderscores(b[1..])
    else [b[0]] + DropUnderscores(b[1..])
  }

  /** What follows the optional sign of a literal. */
  function LiteralBody(t: string): string
  {
    if |t| > 0 && (t[0] == '-' || t[0] == '+') then t[1..] else t
  }

  /** The value of a digit body, negated under a minus sign. */
  function LiteralValue(t: string): int
    requires forall i :: 0 <= i < |LiteralBody(t)| ==> IsDigit(LiteralBody(t)[i]) || LiteralBody(t)[i] == '_'
  {
    var n := DigitsValue(DropUnderscores(LiteralBody(t)));
    if |t| > 0 && t[0] == '-' then -(n as int) else n as int
  }

  /** `int()` on an already stripped literal: an optional sign, then a digit body. */
  function ParseStripped(t: string): (r: Result<int, string>)
  {
    if !IsDigitBody(LiteralBody(t)) then Err("invalid literal for int() with base 10")
    else Ok(LiteralValue(t))
  }

  /** Python's `int(s)` with base 10 on ASCII digits: surrounding whitespace is stripped,
      an optional sign is read, and the rest must be a digit body; otherwise `ValueError`. */
  function ParseInt(s: string): (r: Result<int, string>)
  {
    ParseStripped(Strip(s))
  }

  lemma {:induction false} DigitsValueOfDecimal(n: nat)
    ensures DigitsValue(NatToDecimal(n)) == n
  {
    if n >= 10 {
      var s := NatToDecimal(n);
      assert s[..|s| - 1] == NatToDecimal(n / 10);
      DigitsValueOfDecimal(n / 10);
    }
  }

  lemma {:induction false} DropUnderscoresOfDigits(d: string)
    requires forall i :: 0 <= i < |d| ==> IsDigit(d[i])
    ensures DropUnderscores(d) == d
  {
    if |d| > 0 {
      DropUnderscoresOfDigits(d[1..]);
    }
  }

  lemma StripOfTrimmed(s: string)
    requires |s| > 0 && !IsIntWhitespace(s[0]) && !IsIntWhitespace(s[|s| - 1])
    ensures Strip(s) == s
  {
    assert LStrip(s) == s;
  }

  /** The decimal digits of a number form a digit body that reads back as the number. */
  lemma DecimalIsDigitBody(n: nat)
    ensures IsDigitBody(NatToDecimal(n))
    ensures DigitsValue(DropUnderscores(NatToDecimal(n))) == n
  {
    var d := NatToDecimal(n);
    assert IsDigit(d[0]) && IsDigit(d[|d| - 1]);
    forall j | 0 <= j <= |d| ensures !OccursAt(d, "__", j) {
      if j + 2 <= |d| { assert d[j..j + 2][0] == d[j]; }
    }
    DropUnderscoresOfDigits(d);
    DigitsValueOfDecimal(n);
  }

  /** `int()` of a digit body. */
  lemma ParseIntOfBody(body: string)
    requires IsDigitBody(body)
    ensures ParseInt(body) == Ok(DigitsValue(DropUnderscores(body)) as int)
  {
    assert Strip(body) == body by {
      StripOfTrimmed(body);
    }
    assert LiteralBody(body) == body;
  }

  lemma NegatedBodyIsTrimmed(body: string)
    requires IsDigitBody(body)
    ensures Strip("-" + body) == "-" + body
  {
    var s := "-" + body;
    assert s[|s| - 1] == body[|body| - 1];
    StripOfTrimmed(s);
  }

  lemma NegatedBodyLiteral(body: string)
    ensures LiteralBody("-" + body) == body
    ensures ("-" + body)[0] == '-'
  {
    assert ("-" + body)[1..] == body;
  }

  /** `int()` of a minus sign followed by a digit body. */
  lemma ParseIntOfNegatedBody(body: string)
    requires IsDigitBody(body)
    ensures ParseInt("-" + body) == Ok(-(DigitsValue(DropUnderscores(body)) as int))
  {
    NegatedBodyIsTrimmed(body);
    NegatedBodyLiteral(body);
  }

  /** `int(str(i)) == i` for every integer. */
  lemma ParseIntOfIntToString(i: int)
    ensures ParseInt(IntToString(i)) == Ok(i)
  {
    var m: nat := if i < 0 then -i else i;
    DecimalIsDigitBody(m);
    if i < 0 {
      ParseIntOfNegatedBody(NatToDecimal(m));
    } else {
      ParseIntOfBody(NatToDecimal(m));
    }
  }

  /** `int()` does not skip the ASCII separator U+001C; `str.isspace()` would. */
  lemma ParseIntKeepsFileSeparator()
    ensures ParseInt("\U{1C}5").Err?
  {
    var s := "\U{1C}5";
    assert LStrip(s) == s;
    assert RStrip(s) == s;
    assert LiteralBody(s) == s;
  }

  /** A decimal rendering never contains `", "`. */
  lemma IntToStringHasNoCommaSpace(i: int)
    ensures !Contains(IntToString(i), ", ")
  {
    var s := IntToString(i);
    var digits := NatToDecimal(if i < 0 then -i else i);
    forall k | 0 <= k < |s| ensures s[k] != ',' {
      if i < 0 && k > 0 { assert s[k] == digits[k - 1]; }
    }
    forall j | 0 <= j <= |s| ensures !OccursAt(s, ", ", j) {
      if j + 2 <= |s| { assert s[j..j + 2][0] == s[j]; }
    }
  }
}
