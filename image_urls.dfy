/** The file extension of a product image, as `get_image_extension` derives it from the
    image URL: the path component of `urllib.parse.urlsplit(url, scheme='',
    allow_fragments=True)` (CPython 3.12), percent-decoded with `urllib.parse.unquote(...,
    encoding='utf-8', errors='replace')`, then cut with `os.path.splitext` (POSIX). */
module ImageUrls {
  import opened PyBuiltins

  // ---------------------------------------------------------------------------
  // urlsplit, as far as the path component

  /** The characters `urlsplit` strips from the front of a URL (C0 controls and space). */
  predicate IsC0ControlOrSpace(c: char) { c <= ' ' }

  function LStripC0(s: string): (t: string)
    ensures |t| <= |s|
    ensures |t| > 0 ==> !IsC0ControlOrSpace(t[0])
  {
    if |s| > 0 && IsC0ControlOrSpace(s[0]) then LStripC0(s[1..]) else s
  }

  /** What `LStripC0` keeps is a suffix of its input. */
  lemma {:induction false} LStripC0Suffix(s: string)
    ensures LStripC0(s) == s[|s| - |LStripC0(s)|..]
  {
    if |s| > 0 && IsC0ControlOrSpace(s[0]) {
      LStripC0Suffix(s[1..]);
      assert s[1..][|s| - 1 - |LStripC0(s)|..] == s[|s| - |LStripC0(s)|..];
    }
  }

  /** Tab, carriage return and line feed, which `urlsplit` deletes wherever they are. */
  predicate IsUnsafeUrlChar(c: char) { c == '\t' || c == '\r' || c == '\n' }

  function RemoveUnsafe(s: string): (t: string)
    ensures forall i :: 0 <= i < |t| ==> t[i] in s && !IsUnsafeUrlChar(t[i])
  {
    if |s| == 0 then ""
    else (if IsUnsafeUrlChar(s[0]) then "" else [s[0]]) + RemoveUnsafe(s[1..])
  }

  predicate IsAsciiLetter(c: char) { ('a' <= c <= 'z') || ('A' <= c <= 'Z') }

  /** urllib.parse's `scheme_chars`. */
  predicate IsSchemeChar(c: char) {
    IsAsciiLetter(c) || IsDigit(c) || c == '+' || c == '-' || c == '.'
  }

  /** What is left once a leading `scheme:` has been cut off: the text before the first `:`
      is a scheme when it is non-empty, starts with an ASCII letter and holds only scheme
      characters. */
  function AfterScheme(u: string): string {
    var i := FindChar(u, ':', 0);
    if IsSchemePrefix(u, i) then u[i + 1..] else u
  }

  /** The first `i` characters of `u` form a scheme. */
  predicate IsSchemePrefix(u: string, i: int) {
    0 < i <= |u| && IsAsciiLetter(u[0]) && forall k :: 0 <= k < i ==> IsSchemeChar(u[k])
  }

  predicate IsNetlocDelimiter(c: char) { c == '/' || c == '?' || c == '#' }

  function MinFound(d: nat, w: int): nat {
    if 0 <= w < d then w else d
  }

  /** `_splitnetloc(u, 2)`: the netloc ends at the first `/`, `?` or `#` from index 2 on. */
  function NetlocEnd(u: string): (d: nat)
    requires |u| >= 2
    ensures 2 <= d <= |u|
    ensures forall k :: 2 <= k < d ==> !IsNetlocDelimiter(u[k])
    ensures d < |u| ==> IsNetlocDelimiter(u[d])
  {
    MinFound(MinFound(MinFound(|u|, FindChar(u, '/', 2)), FindChar(u, '?', 2)), FindChar(u, '#', 2))
  }

  /** The "Invalid IPv6 URL" check: a netloc with only one of `[` and `]`. */
  predicate BracketMismatch(netloc: string) {
    ('[' in netloc && ']' !in netloc) || (']' in netloc && '[' !in netloc)
  }

  /** The URL as `urlsplit` first cleans it, with a leading scheme removed. */
  function AfterCleanScheme(url: string): string {
    AfterScheme(RemoveUnsafe(LStripC0(url)))
  }

  /** What follows a leading `//netloc`, or the `ValueError` raised for a netloc with
      unbalanced brackets. */
  function SkipNetloc(rest: string): Result<string, string> {
    if |rest| >= 2 && rest[..2] == "//" then
      var d := NetlocEnd(rest);
      if BracketMismatch(rest[2..d]) then Err("Invalid IPv6 URL") else Ok(rest[d..])
    else Ok(rest)
  }

  /** The URL with scheme and netloc removed, still holding query and fragment. */
  function AfterNetloc(url: string): Result<string, string> {
    SkipNetloc(AfterCleanScheme(url))
  }

  /** `s.split(c, 1)[0]`: everything before the first `c`. */
  function BeforeChar(s: string, c: char): (t: string)
    ensures c !in t
  {
    var i := FindChar(s, c, 0);
    if i < 0 then s else s[..i]
  }

  /** `urlsplit(url)[2]`: the fragment is cut at the first `#`, then the query at the first `?`. */
  function UrlPath(url: string): (r: Result<string, string>)
    ensures r.Ok? ==> '?' !in r.value && '#' !in r.value
  {
    match AfterNetloc(url)
    case Err(e) => Err(e)
    case Ok(x) =>
      var path := BeforeChar(BeforeChar(x, '#'), '?');
      assert forall i :: 0 <= i < |path| ==> path[i] in BeforeChar(x, '#');
      Ok(path)
  }

  // ---------------------------------------------------------------------------
  // unquote

  predicate IsHexDigit(c: char) {
    IsDigit(c) || ('a' <= c <= 'f') || ('A' <= c <= 'F')
  }

  function HexValue(c: char): (v: int)
    requires IsHexDigit(c)
    ensures 0 <= v < 16
  {
    if IsDigit(c) then c as int - '0' as int
    else if 'a' <= c <= 'f' then c as int - 'a' as int + 10
    else c as int - 'A' as int + 10
  }

  predicate IsAscii(c: char) { c as int < 128 }

  predicate IsByte(b: int) { 0 <= b < 256 }

  /** `unquote_to_bytes` on a run of ASCII characters: `%XX` with two hex digits becomes
      that byte, every other character its own code. */
  function PercentBytes(s: string): (bs: seq<int>)
    requires forall i :: 0 <= i < |s| ==> IsAscii(s[i])
    ensures forall i :: 0 <= i < |bs| ==> IsByte(bs[i])
  {
    if |s| == 0 then []
    else if s[0] == '%' && |s| >= 3 && IsHexDigit(s[1]) && IsHexDigit(s[2]) then
      var b := 16 * HexValue(s[1]) + HexValue(s[2]);
      assert IsByte(b);
      [b] + PercentBytes(s[3..])
    else
      assert IsAscii(s[0]);
      [s[0] as int] + PercentBytes(s[1..])
  }

  const ReplacementChar: char := '\U{FFFD}'

  predicate ContinuationIn(bs: seq<int>, k: nat, lo: int, hi: int) {
    k < |bs| && lo <= bs[k] <= hi
  }

  /** One step of CPython's UTF-8 decoder with `errors='replace'`: the number of bytes
      consumed and the character produced. An ill-formed sequence is replaced by one
      U+FFFD covering its longest well-formed prefix (at least its first byte). */
  function DecodeUtf8Step(bs: seq<int>): (r: (nat, char))
    requires |bs| > 0 && forall i :: 0 <= i < |bs| ==> IsByte(bs[i])
    ensures 1 <= r.0 <= |bs|
  {
    var b0 := bs[0];
    assert IsByte(b0);
    if b0 < 0x80 then (1, b0 as char)
    else if 0xC2 <= b0 <= 0xDF then
      if ContinuationIn(bs, 1, 0x80, 0xBF) then
        var cp := (b0 - 0xC0) * 64 + (bs[1] - 0x80);
        assert 0x80 <= cp < 0x800;
        (2, cp as char)
      else (1, ReplacementChar)
    else if 0xE0 <= b0 <= 0xEF then
      var lo := if b0 == 0xE0 then 0xA0 else 0x80;
      var hi := if b0 == 0xED then 0x9F else 0xBF;
      if !ContinuationIn(bs, 1, lo, hi) then (1, ReplacementChar)
      else if !ContinuationIn(bs, 2, 0x80, 0xBF) then (2, ReplacementChar)
      else
        var cp := (b0 - 0xE0) * 0x1000 + (bs[1] - 0x80) * 64 + (bs[2] - 0x80);
        assert cp < 0xD800 || 0xE000 <= cp < 0x10000;
        (3, cp as char)
    else if 0xF0 <= b0 <= 0xF4 then
      var lo := if b0 == 0xF0 then 0x90 else 0x80;
      var hi := if b0 == 0xF4 then 0x8F else 0xBF;
      if !ContinuationIn(bs, 1, lo, hi) then (1, ReplacementChar)
      else if !ContinuationIn(bs, 2, 0x80, 0xBF) then (2, ReplacementChar)
      else if !ContinuationIn(bs, 3, 0x80, 0xBF) then (3, ReplacementChar)
      else
        var cp := (b0 - 0xF0) * 0x40000 + (bs[1] - 0x80) * 0x1000 + (bs[2] - 0x80) * 64 + (bs[3] - 0x80);
        assert 0x10000 <= cp < 0x110000;
        (4, cp as char)
    else (1, ReplacementChar)
  }

  /** `bytes.decode('utf-8', errors='replace')`. */
  function DecodeUtf8(bs: seq<int>): string
    requires forall i :: 0 <= i < |bs| ==> IsByte(bs[i])
    decreases |bs|
  {
    if |bs| == 0 then ""
    else
      var (n, c) := DecodeUtf8Step(bs);
      [c] + DecodeUtf8(bs[n..])
  }

  /** The length of the run of ASCII characters that starts `s`. */
  function AsciiRunLength(s: string): (n: nat)
    ensures n <= |s| && forall i :: 0 <= i < n ==> IsAscii(s[i])
    ensures n < |s| ==> !IsAscii(s[n])
  {
    if |s| == 0 || !IsAscii(s[0]) then 0 else 1 + AsciiRunLength(s[1..])
  }

  /** Non-ASCII characters are kept; each maximal ASCII run is percent-decoded to bytes
      and those bytes decoded as UTF-8. */
  function UnquoteRuns(s: string): string
    decreases |s|
  {
    if |s| == 0 then ""
    else if !IsAscii(s[0]) then [s[0]] + UnquoteRuns(s[1..])
    else
      var n := AsciiRunLength(s);
      DecodeUtf8(PercentBytes(s[..n])) + UnquoteRuns(s[n..])
  }

  /** `urllib.parse.unquote(s, encoding='utf-8', errors='replace')`. */
  function Unquote(s: string): (r: string)
    ensures '%' !in s ==> r == s
  {
    if '%' !in s then s else UnquoteRuns(s)
  }

  // ---------------------------------------------------------------------------
  // os.path.splitext and os.path.join

  /** An extension as `splitext` returns it: empty, or a dot followed by characters that are
      neither a dot nor a slash. */
  predicate IsExtension(e: string) {
    e == "" || (e[0] == '.' && forall k :: 1 <= k < |e| ==> e[k] != '.' && e[k] != '/')
  }

  /** The last segment of `p` (after its last `/`) holds a dot that follows some character
      other than a dot, that is, a dot that is not one of the segment's leading dots. */
  predicate FinalSegmentHasExtension(p: string) {
    exists k, j :: RFindChar(p, '/') < k < j < |p| && p[k] != '.' && p[j] == '.'
  }

  /** `os.path.splitext(p)` on POSIX: the suffix starts at the last `.` when that dot is in
      the final segment and is not one of its leading dots; otherwise it is empty. */
  function SplitExt(p: string): (r: (string, string))
    ensures r.0 + r.1 == p
  {
    var sepIndex := RFindChar(p, '/');
    var dotIndex := RFindChar(p, '.');
    if dotIndex > sepIndex && exists k :: sepIndex < k < dotIndex && p[k] != '.' then
      (p[..dotIndex], p[dotIndex..])
    else
      (p, "")
  }

  lemma ExtensionFromLastDot(p: string, dotIndex: int)
    requires 0 <= dotIndex < |p| && p[dotIndex] == '.'
    requires forall i :: dotIndex < i < |p| ==> p[i] != '.' && p[i] != '/'
    ensures IsExtension(p[dotIndex..])
  {
    var e := p[dotIndex..];
    assert forall i :: 1 <= i < |e| ==> e[i] == p[dotIndex + i];
  }

  /** The suffix `splitext` returns is an extension: empty, or a dot and then neither dots
      nor slashes. */
  lemma SplitExtIsExtension(p: string)
    ensures IsExtension(SplitExt(p).1)
  {
    var sepIndex := RFindChar(p, '/');
    var dotIndex := RFindChar(p, '.');
    if dotIndex > sepIndex && exists k :: sepIndex < k < dotIndex && p[k] != '.' {
      assert SplitExt(p).1 == p[dotIndex..];
      ExtensionFromLastDot(p, dotIndex);
    } else {
      assert SplitExt(p).1 == "";
    }
  }

  /** `splitext` finds an extension exactly when the final segment holds a dot that is not
      one of its leading dots. */
  lemma SplitExtFindsExtension(p: string)
    ensures SplitExt(p).1 != "" <==> FinalSegmentHasExtension(p)
  {
    var sepIndex := RFindChar(p, '/');
    var dotIndex := RFindChar(p, '.');
    if dotIndex > sepIndex && exists k :: sepIndex < k < dotIndex && p[k] != '.' {
      var k :| sepIndex < k < dotIndex && p[k] != '.';
      assert SplitExt(p).1 == p[dotIndex..];
      assert |p[dotIndex..]| > 0;
    } else {
      assert SplitExt(p).1 == "";
    }
  }

  /** `os.path.join(folder, name)` on POSIX for one component. */
  function JoinPath(folder: string, name: string): (path: string)
    ensures |path| >= |name| && path[|path| - |name|..] == name
    ensures folder != "" && (name == "" || name[0] != '/') ==> |path| >= |folder| + |name| && path[..|folder|] == folder
    ensures folder == "" || (|name| > 0 && name[0] == '/') ==> path == name
  {
    if (|name| > 0 && name[0] == '/') || folder == "" then name
    else if folder[|folder| - 1] == '/' then folder + name
    else folder + "/" + name
  }

  // ---------------------------------------------------------------------------
  // get_image_extension

  /** `get_image_extension(url)`: the extension of the percent-decoded URL path, or the
      `ValueError` that `urlsplit` raises. */
  function ImageExtension(url: string): (r: Result<string, string>)
    ensures r.Ok? ==> IsExtension(r.value)
    ensures r.Ok? <==> UrlPath(url).Ok?
  {
    match UrlPath(url)
    case Err(e) => Err(e)
    case Ok(path) =>
      SplitExtIsExtension(Unquote(path));
      Ok(SplitExt(Unquote(path)).1)
  }

  // ---------------------------------------------------------------------------
  // The query and the fragment do not affect the extension

  lemma {:induction false} LStripC0Append(a: string, b: string)
    requires |b| > 0 && !IsC0ControlOrSpace(b[0])
    ensures LStripC0(a + b) == LStripC0(a) + b
  {
    if |a| > 0 {
      if IsC0ControlOrSpace(a[0]) {
        assert (a + b)[1..] == a[1..] + b;
        LStripC0Append(a[1..], b);
      }
    }
  }

  lemma {:induction false} RemoveUnsafeAppend(a: string, b: string)
    ensures RemoveUnsafe(a + b) == RemoveUnsafe(a) + RemoveUnsafe(b)
  {
    if |a| > 0 {
      assert (a + b)[1..] == a[1..] + b;
      RemoveUnsafeAppend(a[1..], b);
    } else {
      assert a + b == b;
    }
  }

  lemma SchemePrefixAppend(a: string, b: string, i: int)
    requires i <= |a|
    ensures IsSchemePrefix(a + b, i) == IsSchemePrefix(a, i)
  {
    var u := a + b;
    assert forall k :: 0 <= k < |a| ==> u[k] == a[k];
  }

  lemma SchemePrefixBlocked(a: string, b: string, i: int)
    requires |b| > 0 && !IsSchemeChar(b[0]) && i > |a|
    ensures !IsSchemePrefix(a + b, i)
  {
    assert (a + b)[|a|] == b[0];
  }

  lemma AfterSchemeAppend(a: string, b: string)
    requires |b| > 0 && !IsSchemeChar(b[0]) && b[0] != ':'
    ensures AfterScheme(a + b) == AfterScheme(a) + b
  {
    var u := a + b;
    var i := FindChar(u, ':', 0);
    var ia := FindChar(a, ':', 0);
    if ia >= 0 {
      assert u[ia] == ':';
      assert forall k :: 0 <= k < ia ==> u[k] == a[k];
      assert i == ia;
      SchemePrefixAppend(a, b, i);
      assert u[i + 1..] == a[i + 1..] + b;
    } else {
      assert forall k :: 0 <= k < |a| ==> u[k] == a[k];
      assert u[|a|] == b[0];
      assert i == -1 || i > |a|;
      if i > |a| {
        SchemePrefixBlocked(a, b, i);
      }
      assert !IsSchemePrefix(a, ia);
    }
  }

  lemma NetlocEndUnique(u: string, d: nat)
    requires 2 <= d <= |u|
    requires forall k :: 2 <= k < d ==> !IsNetlocDelimiter(u[k])
    requires d < |u| ==> IsNetlocDelimiter(u[d])
    ensures NetlocEnd(u) == d
  {
    var e := NetlocEnd(u);
    assert e < |u| ==> IsNetlocDelimiter(u[e]);
    assert d < |u| ==> IsNetlocDelimiter(u[d]);
  }

  lemma NetlocEndAppend(a: string, b: string)
    requires |a| >= 2 && |b| > 0 && IsNetlocDelimiter(b[0])
    ensures NetlocEnd(a + b) == NetlocEnd(a)
  {
    var d := NetlocEnd(a);
    NetlocEndUnique(a + b, d);
  }

  lemma CleanAppend(url: string, c: char, tail: string)
    requires c == '?' || c == '#'
    ensures RemoveUnsafe(LStripC0(url + [c] + tail)) == RemoveUnsafe(LStripC0(url)) + ([c] + RemoveUnsafe(tail))
  {
    var s0 := LStripC0(url);
    assert url + [c] + tail == url + ([c] + tail);
    LStripC0Append(url, [c] + tail);
    RemoveUnsafeAppend(s0, [c] + tail);
    RemoveUnsafeAppend([c], tail);
    assert RemoveUnsafe([c]) == [c];
  }

  lemma AfterCleanSchemeAppend(url: string, c: char, tail: string)
    requires c == '?' || c == '#'
    ensures AfterCleanScheme(url + [c] + tail) == AfterCleanScheme(url) + ([c] + RemoveUnsafe(tail))
  {
    var u0 := RemoveUnsafe(LStripC0(url));
    var t := [c] + RemoveUnsafe(tail);
    assert t[0] == c && !IsSchemeChar(c) && c != ':';
    CleanAppend(url, c, tail);
    AfterSchemeAppend(u0, t);
    assert AfterScheme(RemoveUnsafe(LStripC0(url + [c] + tail))) == AfterScheme(u0) + t;
  }

  lemma SkipNetlocAppend(r0: string, t: string)
    requires |t| > 0 && (t[0] == '?' || t[0] == '#')
    ensures SkipNetloc(r0 + t) ==
      match SkipNetloc(r0)
      case Err(e) => Err(e)
      case Ok(x) => Ok(x + t)
  {
    var rest := r0 + t;
    if |r0| >= 2 {
      assert rest[..2] == r0[..2];
      if r0[..2] == "//" {
        NetlocEndAppend(r0, t);
        var d := NetlocEnd(r0);
        assert rest[2..d] == r0[2..d];
        assert rest[d..] == r0[d..] + t;
      }
    } else {
      assert |rest| >= 2 ==> rest[|r0|] == t[0];
    }
  }

  /** Appending `?...` or `#...` to a URL appends it (less tabs and line breaks) to what follows
      the netloc, and does not change the netloc check. */
  lemma AfterNetlocAppend(url: string, c: char, tail: string)
    requires c == '?' || c == '#'
    ensures AfterNetloc(url + [c] + tail) ==
      match AfterNetloc(url)
      case Err(e) => Err(e)
      case Ok(x) => Ok(x + ([c] + RemoveUnsafe(tail)))
  {
    AfterCleanSchemeAppend(url, c, tail);
    SkipNetlocAppend(AfterCleanScheme(url), [c] + RemoveUnsafe(tail));
  }

  lemma BeforeCharAppend(x: string, c: char, y: string)
    requires c !in x
    ensures BeforeChar(x + y, c) == x + BeforeChar(y, c)
  {
    var u := x + y;
    var i := FindChar(u, c, 0);
    var j := FindChar(y, c, 0);
    if j >= 0 {
      assert u[|x| + j] == c;
      assert i == |x| + j;
      assert u[..i] == x + y[..j];
    } else {
      assert i == -1;
    }
  }

  lemma BeforeCharFree(x: string, c: char)
    requires c !in x
    ensures BeforeChar(x, c) == x
  {
  }

  /** Every character of `t` occurs in `s`. */
  predicate CharsFrom(t: string, s: string) {
    forall i :: 0 <= i < |t| ==> t[i] in s
  }

  lemma CharsFromSuffix(s: string, n: nat)
    requires n <= |s|
    ensures CharsFrom(s[n..], s)
  {
    assert forall i :: 0 <= i < |s| - n ==> s[n..][i] == s[n + i];
  }

  lemma CharsFromTrans(t: string, u: string, s: string)
    requires CharsFrom(t, u) && CharsFrom(u, s)
    ensures CharsFrom(t, s)
  {
    forall i | 0 <= i < |t| ensures t[i] in s {
      var j :| 0 <= j < |u| && u[j] == t[i];
    }
  }

  lemma AfterSchemeChars(u: string)
    ensures CharsFrom(AfterScheme(u), u)
  {
    var i := FindChar(u, ':', 0);
    if IsSchemePrefix(u, i) {
      CharsFromSuffix(u, i + 1);
    } else {
      CharsFromSuffix(u, 0);
      assert u[0..] == u;
    }
  }

  lemma AfterCleanSchemeChars(url: string)
    ensures CharsFrom(AfterCleanScheme(url), url)
  {
    var s0 := LStripC0(url);
    var u0 := RemoveUnsafe(s0);
    assert CharsFrom(s0, url) by {
      LStripC0Suffix(url);
      CharsFromSuffix(url, |url| - |s0|);
    }
    assert CharsFrom(u0, s0);
    CharsFromTrans(u0, s0, url);
    AfterSchemeChars(u0);
    CharsFromTrans(AfterScheme(u0), u0, url);
  }

  lemma AfterNetlocChars(url: string)
    ensures AfterNetloc(url).Ok? ==> CharsFrom(AfterNetloc(url).value, url)
  {
    AfterCleanSchemeChars(url);
    var r0 := AfterCleanScheme(url);
    if |r0| >= 2 && r0[..2] == "//" {
      var d := NetlocEnd(r0);
      CharsFromSuffix(r0, d);
      CharsFromTrans(r0[d..], r0, url);
    }
  }

  /** Cutting `x + t` at the first `#` and then at the first `?`, where `t` starts with `?` or `#`
      and `x` holds neither, leaves `x`. */
  lemma PathOfAppend(x: string, t: string)
    requires '?' !in x && '#' !in x
    requires |t| > 0 && (t[0] == '?' || t[0] == '#')
    ensures BeforeChar(BeforeChar(x + t, '#'), '?') == x
  {
    BeforeCharAppend(x, '#', t);
    var y := BeforeChar(t, '#');
    if t[0] == '#' {
      assert FindChar(t, '#', 0) == 0;
      assert y == [];
      assert x + y == x;
      BeforeCharFree(x, '?');
    } else {
      assert FindChar(t, '#', 0) != 0;
      assert |y| > 0 && y[0] == '?';
      BeforeCharAppend(x, '?', y);
      assert FindChar(y, '?', 0) == 0;
      assert BeforeChar(y, '?') == [];
      assert x + [] == x;
    }
  }

  /** A suffix starting with `?` or `#` appended to a URL without either does not change its
      path. */
  lemma SuffixIgnored(url: string, c: char, tail: string)
    requires '?' !in url && '#' !in url
    requires c == '?' || c == '#'
    ensures UrlPath(url + [c] + tail) == UrlPath(url)
  {
    AfterNetlocAppend(url, c, tail);
    AfterNetlocChars(url);
    if AfterNetloc(url).Ok? {
      var x := AfterNetloc(url).value;
      var t := [c] + RemoveUnsafe(tail);
      assert '?' !in x && '#' !in x;
      assert AfterNetloc(url + [c] + tail) == Ok(x + t);
      PathOfAppend(x, t);
    }
  }

  /** A query string does not change the path, hence the extension. */
  lemma QueryIgnored(url: string, query: string)
    requires '?' !in url && '#' !in url
    ensures UrlPath(url + "?" + query) == UrlPath(url)
    ensures ImageExtension(url + "?" + query) == ImageExtension(url)
  {
    SuffixIgnored(url, '?', query);
  }

  /** A fragment does not change the path, hence the extension. */
  lemma FragmentIgnored(url: string, fragment: string)
    requires '#' !in url
    ensures UrlPath(url + "#" + fragment) == UrlPath(url)
    ensures ImageExtension(url + "#" + fragment) == ImageExtension(url)
  {
    AfterNetlocAppend(url, '#', fragment);
    AfterNetlocChars(url);
    if AfterNetloc(url).Ok? {
      var x := AfterNetloc(url).value;
      var t := ['#'] + RemoveUnsafe(fragment);
      assert '#' !in x;
      assert AfterNetloc(url + "#" + fragment) == Ok(x + t);
      BeforeCharAppend(x, '#', t);
      assert FindChar(t, '#', 0) == 0;
      assert x + BeforeChar(t, '#') == x;
    }
  }
}
