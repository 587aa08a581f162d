/**
 * The comment linter of linter.py: two per-line rewrites that lower-case
 * the first letter of a comment, one for Python `#` comments and one for
 * Rust `//` comments, and the two drivers that run them over the lines of
 * a file. Reading and writing the file are outside the model: a file is
 * the list `readlines()` returns, each line keeping its newline, and the
 * drivers return the lines they would write.
 */
module Linter {
  import opened Wrappers
  import opened Strings

  // ---- Shared helpers ---------------------------------------------------

  /** Python `s.replace(pat, repl, 1)` for a non-empty `pat`: the first occurrence replaced. */
  function ReplaceFirst(s: string, pat: string, repl: string): string
    requires |pat| > 0
  {
    match FindFrom(s, pat, 0)
    case None => s
    case Some(j) => s[..j] + repl + s[j + |pat|..]
  }

  /** The leading whitespace is exactly the run of blanks that ends at the first non-blank. */
  lemma {:induction false} LeadingSpaceUnique(s: string, n: nat)
    requires n <= |s|
    requires forall i :: 0 <= i < n ==> IsSpace(s[i])
    requires n < |s| ==> !IsSpace(s[n])
    ensures LeadingSpace(s) == n
  {
    if n > 0 {
      LeadingSpaceUnique(s[1..], n - 1);
    }
  }

  /** A pattern holding a character the text lacks is not found in it. */
  lemma MissingCharNotFound(s: string, pat: string, c: char)
    requires c in pat && c !in s
    ensures FindFrom(s, pat, 0).None?
  {
    var i :| 0 <= i < |pat| && pat[i] == c;
    forall j: nat ensures !OccursAt(s, pat, j) {
      if j + |pat| <= |s| {
        assert s[j..j + |pat|][i] == s[j + i];
      }
    }
  }

  /** Lowering the character at `q`. */
  function LowerAt(s: string, q: nat): (r: string)
    requires q < |s|
    ensures |r| == |s| && r[q] == ToLower(s[q])
    ensures forall i :: 0 <= i < |s| && i != q ==> r[i] == s[i]
  {
    s[..q] + [ToLower(s[q])] + s[q + 1..]
  }

  // ---- The `#` rule (lint_and_uncapitalize_comments) ----------------------

  /**
   * One line through linter.py:15-28: when the left-stripped line starts
   * with '#', and the text after it and any blanks starts with an
   * upper-case letter and not with "SAFETY:", the first occurrence of that
   * text in the line is replaced by the text with its first letter
   * lower-cased.
   */
  function HashRule(line: string): string {
    var stripped := LStrip(line);
    if !StartsWith(stripped, "#") then line
    else
      var comment := LStrip(stripped[1..]);
      if |comment| > 0 && IsUpper(comment[0]) && !StartsWith(LStrip(comment), "SAFETY:") then
        ReplaceFirst(line, comment, [ToLower(comment[0])] + comment[1..])
      else line
  }

  /** Where the comment text of a `#` line starts: after the blanks, the '#' and the blanks that follow it. */
  function HashTextAt(line: string): (q: Option<nat>)
    ensures q.Some? ==> q.value <= |line|
  {
    var k := LeadingSpace(line);
    if k < |line| && line[k] == '#' then Some(k + 1 + LeadingSpace(line[k + 1..])) else None
  }

  /** The `#` rule's trigger by position: the comment text starts with an upper-case letter and not with "SAFETY:". */
  predicate HashFires(line: string) {
    HashLetter(line) && !StartsWith(line[HashTextAt(line).value..], "SAFETY:")
  }

  /** The comment text starts with an upper-case letter. */
  predicate HashLetter(line: string) {
    var q := HashTextAt(line);
    q.Some? && q.value < |line| && IsUpper(line[q.value])
  }

  /** The comment text does not occur before its own position: everything before it is a blank or the '#'. */
  lemma FirstOccurrenceIsComment(line: string, q: nat)
    requires q < |line| && IsUpper(line[q])
    requires forall i :: 0 <= i < q ==> IsSpace(line[i]) || line[i] == '#'
    ensures FindFrom(line, line[q..], 0) == Some(q)
  {
    var pat := line[q..];
    assert OccursAt(line, pat, q);
    forall j | 0 <= j < q ensures !OccursAt(line, pat, j) {
      NotAtOtherChar(line, pat, j);
    }
  }

  /** A pattern does not occur where a character other than its first stands. */
  lemma NotAtOtherChar(s: string, pat: string, j: nat)
    requires j < |s| && |pat| > 0 && s[j] != pat[0]
    ensures !OccursAt(s, pat, j)
  {
    if j + |pat| <= |s| {
      assert s[j..j + |pat|][0] == s[j];
    }
  }

  /** The left-stripped line starts with '#' exactly when there is comment text, and that text is `line[q..]`. */
  lemma HashPrefix(line: string)
    ensures StartsWith(LStrip(line), "#") <==> HashTextAt(line).Some?
    ensures HashTextAt(line).Some? ==> LStrip(LStrip(line)[1..]) == line[HashTextAt(line).value..]
  {
    var k := LeadingSpace(line);
    var stripped := LStrip(line);
    if k < |line| {
      assert stripped[0] == line[k];
      assert stripped[1..] == line[k + 1..];
    }
  }

  /** Before the comment text stand only blanks and the one '#'. */
  lemma BeforeCommentText(line: string)
    requires HashTextAt(line).Some?
    ensures forall i :: 0 <= i < HashTextAt(line).value ==> IsSpace(line[i]) || line[i] == '#'
  {
    var k := LeadingSpace(line);
    var t := line[k + 1..];
    forall i | k < i < HashTextAt(line).value ensures IsSpace(line[i]) {
      assert line[i] == t[i - k - 1];
    }
  }

  /** Text that starts with a letter is its own `lstrip()`. */
  lemma LetterStripped(c: string)
    requires |c| > 0 && IsUpper(c[0])
    ensures LStrip(c) == c
  {
    assert LeadingSpace(c) == 0;
  }

  /** Replacing the first occurrence of the comment text lower-cases the letter at its own position. */
  lemma ReplaceAtComment(line: string, q: nat)
    requires q < |line| && IsUpper(line[q])
    requires forall i :: 0 <= i < q ==> IsSpace(line[i]) || line[i] == '#'
    ensures ReplaceFirst(line, line[q..], [ToLower(line[q])] + line[q + 1..]) == LowerAt(line, q)
  {
    FirstOccurrenceIsComment(line, q);
    var r := ReplaceFirst(line, line[q..], [ToLower(line[q])] + line[q + 1..]);
    assert r == line[..q] + [ToLower(line[q])] + line[q + 1..];
  }

  /**
   * What the `#` rule does: when the trigger holds it lower-cases the one
   * letter where the comment text starts, and otherwise leaves the line as
   * it is. Length and every other character are kept, so `replace(..., 1)`
   * does hit the comment's own position.
   */
  lemma HashRuleEffect(line: string)
    ensures HashFires(line) ==> HashRule(line) == LowerAt(line, HashTextAt(line).value)
    ensures !HashFires(line) ==> HashRule(line) == line
  {
    if HashFires(line) {
      HashRuleFires(line);
    } else {
      HashRuleQuiet(line);
    }
  }

  lemma HashRuleFires(line: string)
    requires HashFires(line)
    ensures HashRule(line) == LowerAt(line, HashTextAt(line).value)
  {
    HashRuleReplaces(line);
    CommentReplaced(line);
  }

  /** When the trigger holds, replacing the comment text lower-cases its first letter in place. */
  lemma CommentReplaced(line: string)
    requires HashLetter(line)
    ensures var q := HashTextAt(line).value;
      ReplaceFirst(line, line[q..], [ToLower(line[q])] + line[q + 1..]) == LowerAt(line, q)
  {
    BeforeCommentText(line);
    ReplaceAtComment(line, HashTextAt(line).value);
  }

  /** When the trigger holds, the rule replaces the comment text from its own start. */
  lemma HashRuleReplaces(line: string)
    requires HashFires(line)
    ensures var q := HashTextAt(line).value;
      HashRule(line) == ReplaceFirst(line, line[q..], [ToLower(line[q])] + line[q + 1..])
  {
    var q := HashTextAt(line).value;
    HashPrefix(line);
    LetterStripped(line[q..]);
    var comment := LStrip(LStrip(line)[1..]);
    assert comment[0] == line[q] && comment[1..] == line[q + 1..];
  }

  lemma HashRuleQuiet(line: string)
    requires !HashFires(line)
    ensures HashRule(line) == line
  {
    HashPrefix(line);
    if HashTextAt(line).Some? {
      var q := HashTextAt(line).value;
      if q < |line| && IsUpper(line[q]) {
        LetterStripped(line[q..]);
      }
    }
  }

  /** Lower-casing the first letter of the comment text leaves the text where it was. */
  lemma LoweredKeepsHashText(line: string)
    requires HashLetter(line)
    ensures HashTextAt(LowerAt(line, HashTextAt(line).value)) == HashTextAt(line)
  {
    var q := HashTextAt(line).value;
    var r := LowerAt(line, q);
    var k := LeadingSpace(line);
    LeadingSpaceUnique(r, k);
    var t := line[k + 1..];
    var u := r[k + 1..];
    forall i | 0 <= i < q - k - 1 ensures IsSpace(u[i]) {
      assert u[i] == t[i];
    }
    assert u[q - k - 1] == r[q];
    LeadingSpaceUnique(u, q - k - 1);
  }

  /** The `#` rule is idempotent: a second run over its output changes nothing. */
  lemma HashRuleIdempotent(line: string)
    ensures HashRule(HashRule(line)) == HashRule(line)
  {
    HashRuleEffect(line);
    if HashFires(line) {
      var r := LowerAt(line, HashTextAt(line).value);
      LoweredKeepsHashText(line);
      HashRuleEffect(r);
    }
  }

  /** Comment text that begins "SAFETY:" is left alone by the `#` rule. */
  lemma HashSafetyExempt(line: string)
    requires HashTextAt(line).Some? && StartsWith(line[HashTextAt(line).value..], "SAFETY:")
    ensures HashRule(line) == line
  {
    HashRuleEffect(line);
  }

  // ---- The `//` rule (lowercase_comment_leading_letter) ------------------

  /** The number of '/' characters from index `k` on. */
  function SlashRun(s: string, k: nat): (n: nat)
    requires k <= |s|
    ensures k + n <= |s|
    ensures k + n < |s| ==> s[k + n] != '/'
    decreases |s| - k
  {
    if k < |s| && s[k] == '/' then 1 + SlashRun(s, k + 1) else 0
  }

  /** Everything a slash run covers is a '/'. */
  lemma {:induction false} SlashRunSpans(s: string, k: nat)
    requires k <= |s|
    ensures forall i :: k <= i < k + SlashRun(s, k) ==> s[i] == '/'
    decreases |s| - k
  {
    if k < |s| && s[k] == '/' {
      SlashRunSpans(s, k + 1);
    }
  }

  /** The number of blanks (Python's `\s`) from index `k` on. */
  function BlankRun(s: string, k: nat): (n: nat)
    requires k <= |s|
    ensures k + n <= |s|
    ensures k + n < |s| ==> !IsSpace(s[k + n])
    decreases |s| - k
  {
    if k < |s| && IsSpace(s[k]) then 1 + BlankRun(s, k + 1) else 0
  }

  /** Everything a blank run covers is a blank. */
  lemma {:induction false} BlankRunSpans(s: string, k: nat)
    requires k <= |s|
    ensures forall i :: k <= i < k + BlankRun(s, k) ==> IsSpace(s[i])
    decreases |s| - k
  {
    if k < |s| && IsSpace(s[k]) {
      BlankRunSpans(s, k + 1);
    }
  }

  /** Where the captured letter of the pattern at linter.py:48 would stand: after blanks, two or more '/' and blanks. */
  function SlashLetterAt(line: string): (q: Option<nat>)
    ensures q.Some? ==> q.value < |line|
  {
    var k := BlankRun(line, 0);
    var m := SlashRun(line, k);
    if m < 2 then None
    else
      var q := k + m + BlankRun(line, k + m);
      if q < |line| then Some(q) else None
  }

  /** The `re.match` of linter.py:48 succeeds: an upper-case letter stands at that place. */
  predicate SlashMatches(line: string) {
    SlashLetterAt(line).Some? && IsUpper(line[SlashLetterAt(line).value])
  }

  /**
   * One line through linter.py:45-55: a line holding "SAFETY:" anywhere
   * is kept; otherwise, when the pattern matches, the `re.sub` keeps the
   * matched prefix and lower-cases the captured letter.
   */
  function SlashRule(line: string): string {
    if Contains(line, "SAFETY:") then line
    else if SlashMatches(line) then
      var q := SlashLetterAt(line).value;
      line[..q] + [ToLower(line[q])] + line[q + 1..]
    else line
  }

  /**
   * The pattern of linter.py:48 read literally: from the start of the
   * line, `k` blanks, `m >= 2` slashes, blanks up to `q`, and an upper-case
   * letter at `q`.
   */
  predicate PatternAt(line: string, k: nat, m: nat, q: nat) {
    && 2 <= m && k + m <= q < |line|
    && (forall i :: 0 <= i < k ==> IsSpace(line[i]))
    && (forall i :: k <= i < k + m ==> line[i] == '/')
    && (forall i :: k + m <= i < q ==> IsSpace(line[i]))
    && IsUpper(line[q])
  }

  /** A run of '/' that ends at a non-'/' is the whole run. */
  lemma {:induction false} SlashRunUnique(s: string, k: nat, m: nat)
    requires k + m <= |s|
    requires forall i :: k <= i < k + m ==> s[i] == '/'
    requires k + m < |s| ==> s[k + m] != '/'
    ensures SlashRun(s, k) == m
    decreases m
  {
    if m > 0 {
      SlashRunUnique(s, k + 1, m - 1);
    }
  }

  /** A run of blanks that ends at a non-blank is the whole run. */
  lemma {:induction false} BlankRunUnique(s: string, k: nat, m: nat)
    requires k + m <= |s|
    requires forall i :: k <= i < k + m ==> IsSpace(s[i])
    requires k + m < |s| ==> !IsSpace(s[k + m])
    ensures BlankRun(s, k) == m
    decreases m
  {
    if m > 0 {
      BlankRunUnique(s, k + 1, m - 1);
    }
  }

  /** Every way the pattern matches puts the group at `SlashLetterAt`. */
  lemma PatternIsSlashMatch(line: string, k: nat, m: nat, q: nat)
    requires PatternAt(line, k, m, q)
    ensures SlashMatches(line) && SlashLetterAt(line) == Some(q)
  {
    ShapeLetter(line, k, m, q);
  }

  /** Blanks, two or more slashes and blanks, up to a character that is neither. */
  predicate SlashShape(s: string, k: nat, m: nat, q: nat) {
    && 2 <= m && k + m <= q < |s|
    && (forall i :: 0 <= i < k ==> IsSpace(s[i]))
    && (forall i :: k <= i < k + m ==> s[i] == '/')
    && (forall i :: k + m <= i < q ==> IsSpace(s[i]))
    && !IsSpace(s[q]) && s[q] != '/'
  }

  /** Such a shape fixes where `SlashLetterAt` looks. */
  lemma ShapeLetter(s: string, k: nat, m: nat, q: nat)
    requires SlashShape(s, k, m, q)
    ensures SlashLetterAt(s) == Some(q)
  {
    assert BlankRun(s, 0) == k by {
      BlankRunUnique(s, 0, k);
    }
    assert SlashRun(s, k) == m by {
      SlashRunUnique(s, k, m);
    }
    assert BlankRun(s, k + m) == q - k - m by {
      BlankRunUnique(s, k + m, q - k - m);
    }
  }

  /** And a match found by `SlashMatches` is a match of the pattern. */
  lemma SlashMatchIsPattern(line: string)
    requires SlashMatches(line)
    ensures var k := BlankRun(line, 0);
      PatternAt(line, k, SlashRun(line, k), SlashLetterAt(line).value)
  {
    var k := BlankRun(line, 0);
    BlankRunSpans(line, 0);
    SlashRunSpans(line, k);
    BlankRunSpans(line, k + SlashRun(line, k));
  }

  /** What the `//` rule does: the captured letter is lower-cased and nothing else changes. */
  lemma SlashRuleEffect(line: string)
    ensures !Contains(line, "SAFETY:") && SlashMatches(line) ==> SlashRule(line) == LowerAt(line, SlashLetterAt(line).value)
    ensures Contains(line, "SAFETY:") || !SlashMatches(line) ==> SlashRule(line) == line
  {
  }

  /** The `//` rule is idempotent: a second run over its output changes nothing. */
  lemma SlashRuleIdempotent(line: string)
    ensures SlashRule(SlashRule(line)) == SlashRule(line)
  {
    SlashRuleEffect(line);
    if !Contains(line, "SAFETY:") && SlashMatches(line) {
      var r := LowerAt(line, SlashLetterAt(line).value);
      LoweredKeepsSlashLetter(line);
      SlashRuleEffect(r);
    }
  }

  /** Lower-casing the captured letter leaves the pattern's place where it was. */
  lemma LoweredKeepsSlashLetter(line: string)
    requires SlashMatches(line)
    ensures SlashLetterAt(LowerAt(line, SlashLetterAt(line).value)) == SlashLetterAt(line)
  {
    var k := BlankRun(line, 0);
    var m := SlashRun(line, k);
    var q := SlashLetterAt(line).value;
    var r := LowerAt(line, q);
    assert SlashShape(r, k, m, q) by {
      SlashMatchIsPattern(line);
    }
    ShapeLetter(r, k, m, q);
  }

  /**
   * The two exemptions differ: a `#` comment is exempt only when its text
   * begins "SAFETY:", a `//` line whenever "SAFETY:" occurs in it. So a
   * comment that merely mentions "SAFETY:" is rewritten after '#' and kept
   * after "//".
   */
  lemma ExemptionsDiffer(text: string)
    requires |text| > 0 && IsUpper(text[0]) && !StartsWith(text, "SAFETY:") && Contains(text, "SAFETY:")
    ensures HashRule("#" + text) == "#" + [ToLower(text[0])] + text[1..]
    ensures SlashRule("//" + text) == "//" + text
  {
    HashRewritesText(text);
    SlashKeepsMention(text);
  }

  /** After '#', comment text that starts with an upper-case letter and not with "SAFETY:" loses that capital. */
  lemma HashRewritesText(text: string)
    requires |text| > 0 && IsUpper(text[0]) && !StartsWith(text, "SAFETY:")
    ensures HashRule("#" + text) == "#" + [ToLower(text[0])] + text[1..]
  {
    var h := "#" + text;
    assert HashTextAt(h) == Some(1) by {
      assert h[1..] == text;
      LeadingSpaceUnique(h, 0);
      LeadingSpaceUnique(h[1..], 0);
    }
    assert HashFires(h) by {
      assert h[1..] == text;
    }
    HashRuleFires(h);
    assert LowerAt(h, 1) == "#" + [ToLower(text[0])] + text[1..];
  }

  /** A `//` line that mentions "SAFETY:" anywhere is kept. */
  lemma SlashKeepsMention(text: string)
    requires Contains(text, "SAFETY:")
    ensures SlashRule("//" + text) == "//" + text
  {
    var s := "//" + text;
    var j := FindFrom(text, "SAFETY:", 0).value;
    assert s[j + 2..j + 9] == text[j..j + 7];
    assert OccursAt(s, "SAFETY:", j + 2);
  }

  /** An ordinary `//` comment is rewritten. */
  lemma SlashRewritesComment()
    ensures SlashRule("//X") == "//x"
  {
    var f := "//X";
    assert "SAFETY:"[6] == ':';
    MissingCharNotFound(f, "SAFETY:", ':');
    assert PatternAt(f, 0, 2, 2);
    PatternIsSlashMatch(f, 0, 2, 2);
  }

  // ---- The drivers --------------------------------------------------------

  /**
   * The body of the line loop at linter.py:15-27: a line whose comment
   * begins with an upper-case letter, not under "SAFETY:", comes out with
   * that letter lowered and nothing else changed; every other line comes
   * out as it went in.
   */
  method UncapitalizeHashComment(line: string) returns (out: string)
    ensures HashFires(line) ==> out == LowerAt(line, HashTextAt(line).value)
    ensures !HashFires(line) ==> out == line
  {
    out := line;
    var strippedLine := LStrip(line);
    if StartsWith(strippedLine, "#") {
      var comment := LStrip(strippedLine[1..]);
      if |comment| > 0 && IsUpper(comment[0]) && !StartsWith(LStrip(comment), "SAFETY:") {
        var newComment := [ToLower(comment[0])] + comment[1..];
        out := ReplaceFirst(line, comment, newComment);
      }
    }
    assert out == HashRule(line);
    HashRuleEffect(line);
  }

  /** Any text with the effect `HashRuleEffect` describes is the rule's own result. */
  lemma EffectIsHashRule(line: string, out: string)
    requires HashFires(line) ==> out == LowerAt(line, HashTextAt(line).value)
    requires !HashFires(line) ==> out == line
    ensures out == HashRule(line)
  {
    HashRuleEffect(line);
  }

  /**
   * `lint_and_uncapitalize_comments` (linter.py:5-34) over the lines of a
   * file: one output line per input line, in order, each the `#` rule's
   * rewrite of its input line.
   */
  method LintHashComments(lines: seq<string>) returns (modifiedLines: seq<string>)
    ensures |modifiedLines| == |lines|
    ensures forall i :: 0 <= i < |lines| ==> modifiedLines[i] == HashRule(lines[i])
  {
    modifiedLines := [];
    for n := 0 to |lines|
      invariant |modifiedLines| == n
      invariant forall i :: 0 <= i < n ==> modifiedLines[i] == HashRule(lines[i])
    {
      var line := UncapitalizeHashComment(lines[n]);
      EffectIsHashRule(lines[n], line);
      modifiedLines := modifiedLines + [line];
    }
  }

  /**
   * `lowercase_comment_leading_letter` (linter.py:37-58) over the lines of
   * a file: the lines it writes, one per input line, in order, each the
   * `//` rule's rewrite of its input line.
   */
  method LowercaseSlashComments(lines: seq<string>) returns (written: seq<string>)
    ensures |written| == |lines|
    ensures forall i :: 0 <= i < |lines| ==> written[i] == SlashRule(lines[i])
  {
    written := [];
    for n := 0 to |lines|
      invariant |written| == n
      invariant forall i :: 0 <= i < n ==> written[i] == SlashRule(lines[i])
    {
      var line := lines[n];
      if Contains(line, "SAFETY:") {
        written := written + [line];
        continue;
      }
      var letter := SlashLetterAt(line);
      if letter.Some? && IsUpper(line[letter.value]) {
        var q := letter.value;
        line := line[..q] + [ToLower(line[q])] + line[q + 1..];
      }
      written := written + [line];
    }
  }
}
