/** `textwrap.dedent` (CPython 3.12), which the bot applies to its multi-line f-string
    templates: lines made only of spaces and tabs are emptied, the longest run of leading
    spaces and tabs common to all other lines (the margin) is computed, and that margin is
    removed from the start of every line that has it. */
module TextWrap {
  import opened PyBuiltins

  predicate IsIndentChar(c: char) { c == ' ' || c == '\t' }

  /** `s` consists of spaces and tabs only (vacuously true of ""). */
  predicate AllIndent(s: string) {
    forall i :: 0 <= i < |s| ==> IsIndentChar(s[i])
  }

  predicate IsPrefix(p: string, s: string) {
    |p| <= |s| && s[..|p|] == p
  }

  /** A line matched by `^[ \t]+$`, which `dedent` replaces by "". */
  function NormalizeLine(l: string): (r: string)
    ensures r == "" || !AllIndent(r)
    ensures r == l || AllIndent(l)
  {
    if AllIndent(l) then "" else l
  }

  function NormalizeLines(lines: seq<string>): (r: seq<string>)
    ensures |r| == |lines|
    ensures forall i :: 0 <= i < |r| ==> r[i] == NormalizeLine(lines[i])
  {
    if |lines| == 0 then [] else [NormalizeLine(lines[0])] + NormalizeLines(lines[1..])
  }

  /** The `[ \t]*` run at the start of a line. */
  function LeadingIndent(l: string): (p: string)
    ensures IsPrefix(p, l) && AllIndent(p)
    ensures |p| < |l| ==> !IsIndentChar(l[|p|])
  {
    if |l| > 0 && IsIndentChar(l[0]) then
      var q := LeadingIndent(l[1..]);
      assert l[..|q| + 1] == [l[0]] + l[1..][..|q|];
      [l[0]] + q
    else ""
  }

  /** The indents `_leading_whitespace_re.findall` collects: one per line that holds a
      character other than a space or a tab, in order. After normalisation those are the
      non-empty lines. */
  function Indents(lines: seq<string>): seq<string>
  {
    if |lines| == 0 then []
    else (if lines[0] == "" then [] else [LeadingIndent(lines[0])]) + Indents(lines[1..])
  }

  /** The longest common prefix of two strings. */
  function CommonPrefix(a: string, b: string): (p: string)
    ensures IsPrefix(p, a) && IsPrefix(p, b)
    ensures |p| < |a| && |p| < |b| ==> a[|p|] != b[|p|]
  {
    if |a| > 0 && |b| > 0 && a[0] == b[0] then
      var q := CommonPrefix(a[1..], b[1..]);
      assert a[..|q| + 1] == [a[0]] + a[1..][..|q|];
      assert b[..|q| + 1] == [b[0]] + b[1..][..|q|];
      [a[0]] + q
    else ""
  }

  /** One step of `dedent`'s margin loop: keep the margin when the indent extends it, take
      the indent when the margin extends it, otherwise cut the margin at the first
      difference. */
  function NextMargin(margin: string, indent: string): string {
    if IsPrefix(margin, indent) then margin
    else if IsPrefix(indent, margin) then indent
    else CommonPrefix(margin, indent)
  }

  function FoldMargin(margin: string, indents: seq<string>): string {
    if |indents| == 0 then margin else FoldMargin(NextMargin(margin, indents[0]), indents[1..])
  }

  /** The margin, or None when no line has text. */
  function Margin(indents: seq<string>): Option<string> {
    if |indents| == 0 then None else Some(FoldMargin(indents[0], indents[1..]))
  }

  function RemoveMargin(l: string, margin: string): string {
    if IsPrefix(margin, l) then l[|margin|..] else l
  }

  function RemoveMarginAll(lines: seq<string>, margin: string): (r: seq<string>)
    ensures |r| == |lines|
    ensures forall i :: 0 <= i < |r| ==> r[i] == RemoveMargin(lines[i], margin)
  {
    if |lines| == 0 then [] else [RemoveMargin(lines[0], margin)] + RemoveMarginAll(lines[1..], margin)
  }

  /** `textwrap.dedent(text)`. */
  function Dedent(text: string): string {
    var lines := NormalizeLines(Split(text, "\n"));
    match Margin(Indents(lines))
    case None => Join(lines, "\n")
    case Some(m) => if m == "" then Join(lines, "\n") else Join(RemoveMarginAll(lines, m), "\n")
  }

  // ---------------------------------------------------------------------------
  // The margin is the longest common prefix of the indents

  lemma PrefixTrans(a: string, b: string, c: string)
    requires IsPrefix(a, b) && IsPrefix(b, c)
    ensures IsPrefix(a, c)
  {
    assert c[..|a|] == c[..|b|][..|a|];
  }

  lemma PrefixAntisym(a: string, b: string)
    requires IsPrefix(a, b) && IsPrefix(b, a)
    ensures a == b
  {
  }

  /** A common prefix of `a` and `b` is a prefix of their longest common prefix. */
  lemma {:induction false} CommonPrefixIsLongest(p: string, a: string, b: string)
    requires IsPrefix(p, a) && IsPrefix(p, b)
    ensures IsPrefix(p, CommonPrefix(a, b))
  {
    if |p| > 0 {
      assert a[0] == p[0] == b[0];
      assert a[1..][..|p| - 1] == p[1..];
      assert b[1..][..|p| - 1] == p[1..];
      CommonPrefixIsLongest(p[1..], a[1..], b[1..]);
      assert p == [p[0]] + p[1..];
    }
  }

  /** One margin step gives a prefix of both the margin and the indent, and keeps every
      prefix they share. */
  lemma NextMarginCommon(m: string, x: string, p: string)
    ensures IsPrefix(NextMargin(m, x), m) && IsPrefix(NextMargin(m, x), x)
    ensures IsPrefix(p, m) && IsPrefix(p, x) ==> IsPrefix(p, NextMargin(m, x))
  {
    if IsPrefix(p, m) && IsPrefix(p, x) {
      CommonPrefixIsLongest(p, m, x);
    }
  }

  /** The folded margin is a prefix of the starting margin and of every indent. */
  lemma {:induction false} FoldMarginIsCommon(m: string, indents: seq<string>)
    ensures IsPrefix(FoldMargin(m, indents), m)
    ensures forall j :: 0 <= j < |indents| ==> IsPrefix(FoldMargin(m, indents), indents[j])
    decreases |indents|
  {
    if |indents| > 0 {
      var m1 := NextMargin(m, indents[0]);
      NextMarginCommon(m, indents[0], "");
      FoldMarginIsCommon(m1, indents[1..]);
      var r := FoldMargin(m, indents);
      assert r == FoldMargin(m1, indents[1..]);
      PrefixTrans(r, m1, m);
      PrefixTrans(r, m1, indents[0]);
      forall j | 1 <= j < |indents| ensures IsPrefix(r, indents[j]) {
        assert indents[j] == indents[1..][j - 1];
      }
    }
  }

  /** A prefix shared by the starting margin and every indent is kept by the fold. */
  lemma {:induction false} FoldMarginKeeps(m: string, indents: seq<string>, p: string)
    requires IsPrefix(p, m)
    requires forall j :: 0 <= j < |indents| ==> IsPrefix(p, indents[j])
    ensures IsPrefix(p, FoldMargin(m, indents))
    decreases |indents|
  {
    if |indents| > 0 {
      NextMarginCommon(m, indents[0], p);
      forall j | 0 <= j < |indents| - 1 ensures IsPrefix(p, indents[1..][j]) {
        assert indents[1..][j] == indents[j + 1];
      }
      FoldMarginKeeps(NextMargin(m, indents[0]), indents[1..], p);
    }
  }

  /** When every indent starts with `p` and one indent is exactly `p`, the margin is `p`. */
  lemma MarginIsShared(indents: seq<string>, p: string, k: nat)
    requires k < |indents| && indents[k] == p
    requires forall j :: 0 <= j < |indents| ==> IsPrefix(p, indents[j])
    ensures Margin(indents) == Some(p)
  {
    var m := FoldMargin(indents[0], indents[1..]);
    forall j | 0 <= j < |indents| - 1 ensures IsPrefix(p, indents[1..][j]) {
      assert indents[1..][j] == indents[j + 1];
    }
    FoldMarginKeeps(indents[0], indents[1..], p);
    FoldMarginIsCommon(indents[0], indents[1..]);
    if k == 0 {
      assert IsPrefix(m, p);
    } else {
      assert indents[1..][k - 1] == p;
      assert IsPrefix(m, p);
    }
    PrefixAntisym(m, p);
  }

  // ---------------------------------------------------------------------------
  // The indents of a list of lines

  /** Every indent is the indent of some non-empty line. */
  lemma {:induction false} IndentsFromLines(lines: seq<string>)
    ensures forall j :: 0 <= j < |Indents(lines)| ==>
      exists i :: 0 <= i < |lines| && lines[i] != "" && Indents(lines)[j] == LeadingIndent(lines[i])
    decreases |lines|
  {
    if |lines| > 0 {
      IndentsFromLines(lines[1..]);
      var head := if lines[0] == "" then [] else [LeadingIndent(lines[0])];
      var r := Indents(lines);
      assert r == head + Indents(lines[1..]);
      forall j | 0 <= j < |r|
        ensures exists i :: 0 <= i < |lines| && lines[i] != "" && r[j] == LeadingIndent(lines[i])
      {
        if j < |head| {
          assert lines[0] != "" && r[j] == LeadingIndent(lines[0]);
        } else {
          var i :| 0 <= i < |lines[1..]| && lines[1..][i] != "" && Indents(lines[1..])[j - |head|] == LeadingIndent(lines[1..][i]);
          assert lines[i + 1] == lines[1..][i];
          assert r[j] == Indents(lines[1..])[j - |head|];
          assert lines[i + 1] != "" && r[j] == LeadingIndent(lines[i + 1]);
        }
      }
    } else {
      assert Indents(lines) == [];
    }
  }

  /** The indent of every non-empty line is among the indents. */
  lemma {:induction false} IndentsCoverLines(lines: seq<string>, k: nat)
    requires k < |lines| && lines[k] != ""
    ensures exists j :: 0 <= j < |Indents(lines)| && Indents(lines)[j] == LeadingIndent(lines[k])
    decreases |lines|
  {
    var head := if lines[0] == "" then [] else [LeadingIndent(lines[0])];
    var r := Indents(lines);
    assert r == head + Indents(lines[1..]);
    if k == 0 {
      assert r[0] == LeadingIndent(lines[0]);
    } else {
      assert lines[1..][k - 1] == lines[k];
      IndentsCoverLines(lines[1..], k - 1);
      var j :| 0 <= j < |Indents(lines[1..])| && Indents(lines[1..])[j] == LeadingIndent(lines[k]);
      assert r[|head| + j] == LeadingIndent(lines[k]);
    }
  }

  /** A line that starts with indent characters `p` and has text has an indent starting
      with `p`. */
  lemma LeadingIndentExtends(l: string, p: string)
    requires IsPrefix(p, l) && AllIndent(p) && !AllIndent(l)
    ensures IsPrefix(p, LeadingIndent(l))
  {
    var q := LeadingIndent(l);
    assert forall i :: 0 <= i < |p| ==> IsIndentChar(l[i]);
    assert |q| >= |p|;
    assert q[..|p|] == l[..|p|];
  }

  /** The margin of normalised lines that all start with `p` (when not empty), one of which
      has exactly `p` as its indent. */
  lemma MarginOfLines(lines: seq<string>, p: string, k: nat)
    requires AllIndent(p)
    requires forall i :: 0 <= i < |lines| ==> lines[i] == "" || (IsPrefix(p, lines[i]) && !AllIndent(lines[i]))
    requires k < |lines| && lines[k] != "" && LeadingIndent(lines[k]) == p
    ensures Margin(Indents(lines)) == Some(p)
  {
    var ids := Indents(lines);
    IndentsFromLines(lines);
    IndentsCoverLines(lines, k);
    var j0 :| 0 <= j0 < |ids| && ids[j0] == LeadingIndent(lines[k]);
    forall j | 0 <= j < |ids| ensures IsPrefix(p, ids[j]) {
      var i :| 0 <= i < |lines| && lines[i] != "" && ids[j] == LeadingIndent(lines[i]);
      LeadingIndentExtends(lines[i], p);
    }
    MarginIsShared(ids, p, j0);
  }

  /** `dedent` of lines (none holding a line break) that, once normalised, all start with the
      indent `p` when not empty, with one of them indented by exactly `p`: every normalised
      line loses `p`. */
  lemma DedentWithMargin(raw: seq<string>, p: string, k: nat)
    requires |raw| > 0 && p != "" && AllIndent(p)
    requires forall i :: 0 <= i < |raw| ==> '\n' !in raw[i]
    requires forall i :: 0 <= i < |raw| ==> NormalizeLine(raw[i]) == "" || IsPrefix(p, raw[i])
    requires k < |raw| && !AllIndent(raw[k]) && LeadingIndent(raw[k]) == p
    ensures Dedent(Join(raw, "\n")) == Join(RemoveMarginAll(NormalizeLines(raw), p), "\n")
  {
    SplitOfJoin(raw, '\n');
    assert Split(Join(raw, "\n"), "\n") == raw;
    var lines := NormalizeLines(raw);
    forall i | 0 <= i < |lines| ensures lines[i] == "" || (IsPrefix(p, lines[i]) && !AllIndent(lines[i])) {
    }
    MarginOfLines(lines, p, k);
  }
}
