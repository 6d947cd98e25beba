/** The Option wrapper used for "may be absent" results throughout the model. */
module Wrappers {
  datatype Option<+T> = None | Some(value: T)
}

/**
 * Line classification for the memory usage report: how one input text is cut
 * into lines (`IO#each_line`), how each line is trimmed (`String#strip`), and
 * the four regular-expression scans the report runs on a line:
 *   `rails\[(\d+)\]`                  the process id tag,
 *   `Oink Action: (([\w\/]+)#(\w+))`  the action marker,
 *   `Memory usage: (\d+) `            the memory marker,
 *   `Oink Log Entry Complete`         the completion marker.
 * Each scan is a matcher anchored at one position plus `Leftmost`, which, like
 * Ruby's `=~`, reports the first position where the matcher succeeds. None of
 * these patterns can succeed by backtracking where the greedy reading fails (the
 * character that must follow each repetition is outside the repeated class), so
 * each anchored matcher is deterministic.
 */
module LineClassifier {
  import opened Wrappers

  /** The characters `String#strip` removes: NUL, tab, LF, VT, FF, CR and space. */
  predicate IsStripSpace(c: char) { c == '\0' || c == ' ' || ('\t' <= c <= '\r') }

  /** `\d` */
  predicate IsDigit(c: char) { '0' <= c <= '9' }

  /** `\w`: an ASCII letter, digit or underscore. */
  predicate IsWordChar(c: char) { 'a' <= c <= 'z' || 'A' <= c <= 'Z' || IsDigit(c) || c == '_' }

  /** `[\w\/]`: a character of the controller path of an action label. */
  predicate IsPathChar(c: char) { IsWordChar(c) || c == '/' }

  predicate IsNotNewline(c: char) { c != '\n' }

  /** Length of the longest run of characters satisfying `p` that starts at `i`. */
  function RunLength(s: string, i: nat, p: char -> bool): (n: nat)
    requires i <= |s|
    ensures i + n <= |s|
    ensures forall k :: i <= k < i + n ==> p(s[k])
    ensures i + n < |s| ==> !p(s[i + n])
    decreases |s| - i
  {
    if i < |s| && p(s[i]) then 1 + RunLength(s, i + 1, p) else 0
  }

  /** Length of the run of strip-whitespace that ends `s[lo..hi]`. */
  function TrailingSpace(s: string, lo: nat, hi: nat): (k: nat)
    requires lo <= hi <= |s|
    ensures k <= hi - lo
    ensures forall i :: hi - k <= i < hi ==> IsStripSpace(s[i])
    ensures k < hi - lo ==> !IsStripSpace(s[hi - k - 1])
    decreases hi
  {
    if lo < hi && IsStripSpace(s[hi - 1]) then 1 + TrailingSpace(s, lo, hi - 1) else 0
  }

  /**
   * The slice `s[b.0..b.1]` that `String#strip` keeps: everything before it and
   * after it is whitespace, and a non-empty slice starts and ends with a
   * character that is not.
   */
  function StripBounds(s: string): (b: (nat, nat))
    ensures b.0 <= b.1 <= |s|
    ensures forall i :: 0 <= i < b.0 ==> IsStripSpace(s[i])
    ensures forall i :: b.1 <= i < |s| ==> IsStripSpace(s[i])
    ensures b.0 < b.1 ==> !IsStripSpace(s[b.0]) && !IsStripSpace(s[b.1 - 1])
  {
    var a := RunLength(s, 0, IsStripSpace);
    var t := TrailingSpace(s, a, |s|);
    (a, |s| - t)
  }

  /** `line.strip` */
  function Strip(s: string): string
  {
    var b := StripBounds(s);
    s[b.0..b.1]
  }

  /** Concatenation of a sequence of strings. */
  function Concat(ls: seq<string>): string
  {
    if ls == [] then [] else ls[0] + Concat(ls[1..])
  }

  /** Length of the first line of a non-empty text, its terminating newline included. */
  function FirstLineLength(s: string): (n: nat)
    requires |s| > 0
    ensures 0 < n <= |s|
    ensures forall k :: 0 <= k < n - 1 ==> s[k] != '\n'
    ensures n < |s| ==> s[n - 1] == '\n'
  {
    var k := RunLength(s, 0, IsNotNewline);
    if k < |s| then k + 1 else k
  }

  /** Whether `ls` is a list of lines as `each_line` yields them. */
  predicate AreLines(ls: seq<string>)
  {
    (forall i :: 0 <= i < |ls| ==> |ls[i]| > 0) &&
    (forall i, k :: 0 <= i < |ls| && 0 <= k < |ls[i]| - 1 ==> ls[i][k] != '\n') &&
    (forall i :: 0 <= i < |ls| - 1 ==> ls[i][|ls[i]| - 1] == '\n')
  }

  /** The first line of a text put in front of the lines of the rest gives the lines of the text. */
  lemma ConsLine(s: string, n: nat, rest: seq<string>)
    requires 0 < n <= |s|
    requires forall k :: 0 <= k < n - 1 ==> s[k] != '\n'
    requires n < |s| ==> s[n - 1] == '\n'
    requires Concat(rest) == s[n..] && AreLines(rest)
    ensures Concat([s[..n]] + rest) == s && AreLines([s[..n]] + rest)
  {
    var ls := [s[..n]] + rest;
    assert ls[1..] == rest;
    assert s[..n] + s[n..] == s;
    if rest != [] {
      assert |Concat(rest)| > 0 by {
        assert Concat(rest) == rest[0] + Concat(rest[1..]);
      }
    }
  }

  /**
   * `input.each_line`: the lines of a text, each keeping its newline. The pieces
   * put back together give the text; none is empty; a newline occurs only as the
   * last character of a piece, and every piece except the last has one.
   */
  function SplitLines(s: string): (ls: seq<string>)
    ensures Concat(ls) == s
    ensures forall i :: 0 <= i < |ls| ==> |ls[i]| > 0
    ensures forall i, k :: 0 <= i < |ls| && 0 <= k < |ls[i]| - 1 ==> ls[i][k] != '\n'
    ensures forall i :: 0 <= i < |ls| - 1 ==> ls[i][|ls[i]| - 1] == '\n'
    decreases |s|
  {
    if s == [] then []
    else
      var n := FirstLineLength(s);
      var rest := SplitLines(s[n..]);
      ConsLine(s, n, rest);
      [s[..n]] + rest
  }

  /**
   * The first position at or after `i` where the anchored matcher `m` succeeds,
   * with what it captured: Ruby's leftmost-match rule for `=~`.
   */
  function Leftmost<T>(s: string, m: (string, nat) -> Option<T>, i: nat): (r: Option<(nat, T)>)
    requires i <= |s|
    ensures r.Some? ==> i <= r.value.0 < |s| && m(s, r.value.0) == Some(r.value.1)
    ensures r.Some? ==> forall j :: i <= j < r.value.0 ==> m(s, j).None?
    ensures r.None? ==> forall j :: i <= j < |s| ==> m(s, j).None?
    decreases |s| - i
  {
    if i == |s| then None
    else
      match m(s, i)
      case Some(v) => Some((i, v))
      case None => Leftmost(s, m, i + 1)
  }

  /** Whether the literal `lit` occurs in `s` at position `i`. */
  predicate LiteralAt(s: string, i: nat, lit: string)
  {
    i + |lit| <= |s| && s[i..i + |lit|] == lit
  }

  /** A literal made of two parts occurs where the first does and the second follows it. */
  lemma LiteralAppend(s: string, i: nat, a: string, b: string)
    ensures LiteralAt(s, i, a + b) <==> LiteralAt(s, i, a) && LiteralAt(s, i + |a|, b)
  {
    if LiteralAt(s, i, a + b) {
      assert s[i..i + |a|] == (a + b)[..|a|];
      assert s[i + |a|..i + |a| + |b|] == (a + b)[|a|..];
    }
    if LiteralAt(s, i, a) && LiteralAt(s, i + |a|, b) {
      assert s[i..i + |a + b|] == s[i..i + |a|] + s[i + |a|..i + |a| + |b|];
    }
  }

  /** A non-empty string all of whose characters satisfy `p`: what `[...]+` matches. */
  predicate IsRun(t: string, p: char -> bool)
  {
    |t| > 0 && forall k :: 0 <= k < |t| ==> p(t[k])
  }

  /** Position `e` of `s` is not followed by a character satisfying `p`: a greedy `+` stops there. */
  predicate EndsRun(s: string, e: nat, p: char -> bool)
  {
    e >= |s| || !p(s[e])
  }

  /** A run of `p` characters that sits at `start` and is not followed by another is the longest run there. */
  lemma RunLengthOf(s: string, start: nat, d: string, p: char -> bool)
    requires IsRun(d, p) && LiteralAt(s, start, d) && EndsRun(s, start + |d|, p)
    ensures RunLength(s, start, p) == |d|
  {
  }

  const PidTag := "rails["
  const ActionTag := "Oink Action: "
  const MemoryTag := "Memory usage: "
  const CompleteTag := "Oink Log Entry Complete"

  /**
   * `rails\[(\d+)\]` anchored at `i`: a capture is a digit run that the tag,
   * the digits and the closing bracket spell out at `i`. `PidAtComplete` is
   * the converse.
   */
  function PidAt(s: string, i: nat): (r: Option<string>)
    ensures r.Some? ==> |r.value| > 0 && forall k :: 0 <= k < |r.value| ==> IsDigit(r.value[k])
    ensures r.Some? ==> LiteralAt(s, i, PidTag + r.value + "]")
  {
    if LiteralAt(s, i, PidTag) then
      var start := i + |PidTag|;
      var n := RunLength(s, start, IsDigit);
      if n > 0 && start + n < |s| && s[start + n] == ']' then
        var d := s[start..start + n];
        LiteralAppend(s, i, PidTag, d);
        LiteralAppend(s, i, PidTag + d, "]");
        Some(d)
      else None
    else None
  }

  /** Wherever the tag, a digit run and the closing bracket occur at `i`, `PidAt` captures that run. */
  lemma PidAtComplete(s: string, i: nat, d: string)
    requires IsRun(d, IsDigit) && LiteralAt(s, i, PidTag + d + "]")
    ensures PidAt(s, i) == Some(d)
  {
    LiteralAppend(s, i, PidTag + d, "]");
    LiteralAppend(s, i, PidTag, d);
    RunLengthOf(s, i + |PidTag|, d, IsDigit);
  }

  /** Two strings joined by `sep` occur at `j` where the first, then `sep`, then the second do. */
  lemma JoinedAt(s: string, j: nat, a: string, sep: char, b: string)
    ensures LiteralAt(s, j, a + [sep] + b) <==>
      LiteralAt(s, j, a) && j + |a| < |s| && s[j + |a|] == sep && LiteralAt(s, j + |a| + 1, b)
  {
    LiteralAppend(s, j, a + [sep], b);
    LiteralAppend(s, j, a, [sep]);
  }

  /**
   * What `([\w\/]+)#(\w+)` matches at `j`: a path run and a word run joined by
   * `#`, the word run being as long as the text allows.
   */
  predicate IsLabelAt(s: string, j: nat, path: string, word: string)
  {
    IsRun(path, IsPathChar) && IsRun(word, IsWordChar) &&
    LiteralAt(s, j, path + "#" + word) && EndsRun(s, j + |path| + 1 + |word|, IsWordChar)
  }

  /** The runs `LabelAt` measures do form a label. */
  lemma RunsFormLabel(s: string, j: nat, k: nat, l: nat)
    requires 0 < k && 0 < l && j + k + 1 + l <= |s| && s[j + k] == '#'
    requires forall m :: j <= m < j + k ==> IsPathChar(s[m])
    requires forall m :: j + k + 1 <= m < j + k + 1 + l ==> IsWordChar(s[m])
    requires EndsRun(s, j + k + 1 + l, IsWordChar)
    ensures IsLabelAt(s, j, s[j..j + k], s[j + k + 1..j + k + 1 + l])
  {
    JoinedAt(s, j, s[j..j + k], '#', s[j + k + 1..j + k + 1 + l]);
  }

  /** `([\w\/]+)#(\w+)` anchored at `j`; `LabelAtComplete` is the converse. */
  function LabelAt(s: string, j: nat): (r: Option<(string, string)>)
    ensures r.Some? ==> IsLabelAt(s, j, r.value.0, r.value.1)
  {
    if j <= |s| then
      var k := RunLength(s, j, IsPathChar);
      if k > 0 && j + k < |s| && s[j + k] == '#' then
        var l := RunLength(s, j + k + 1, IsWordChar);
        if l > 0 then
          RunsFormLabel(s, j, k, l);
          Some((s[j..j + k], s[j + k + 1..j + k + 1 + l]))
        else None
      else None
    else None
  }

  /** Wherever a label occurs at `j`, `LabelAt` captures its two runs. */
  lemma LabelAtComplete(s: string, j: nat, path: string, word: string)
    requires IsLabelAt(s, j, path, word)
    ensures LabelAt(s, j) == Some((path, word))
  {
    JoinedAt(s, j, path, '#', word);
    RunLengthOf(s, j, path, IsPathChar);
    RunLengthOf(s, j + |path| + 1, word, IsWordChar);
    assert s[j..j + |path|] == path && s[j + |path| + 1..j + |path| + 1 + |word|] == word;
  }

  /**
   * `Oink Action: (([\w\/]+)#(\w+))` anchored at `i`, giving its second and
   * third groups: the tag followed by a label. `ActionAtComplete` is the
   * converse.
   */
  function ActionAt(s: string, i: nat): (r: Option<(string, string)>)
    ensures r.Some? ==> LiteralAt(s, i, ActionTag) && IsLabelAt(s, i + |ActionTag|, r.value.0, r.value.1)
  {
    if LiteralAt(s, i, ActionTag) then LabelAt(s, i + |ActionTag|) else None
  }

  /** Wherever the tag and a label occur at `i`, `ActionAt` captures the label's two runs. */
  lemma ActionAtComplete(s: string, i: nat, path: string, word: string)
    requires LiteralAt(s, i, ActionTag) && IsLabelAt(s, i + |ActionTag|, path, word)
    ensures ActionAt(s, i) == Some((path, word))
  {
    LabelAtComplete(s, i + |ActionTag|, path, word);
  }

  /**
   * `Memory usage: (\d+) ` anchored at `i`: a capture is a digit run that the
   * tag, the digits and a space spell out at `i`. `MemoryAtComplete` is the
   * converse.
   */
  function MemoryAt(s: string, i: nat): (r: Option<string>)
    ensures r.Some? ==> forall k :: 0 <= k < |r.value| ==> IsDigit(r.value[k])
    ensures r.Some? ==> |r.value| > 0 && LiteralAt(s, i, MemoryTag + r.value + " ")
  {
    if LiteralAt(s, i, MemoryTag) then
      var start := i + |MemoryTag|;
      var n := RunLength(s, start, IsDigit);
      if n > 0 && start + n < |s| && s[start + n] == ' ' then
        var d := s[start..start + n];
        LiteralAppend(s, i, MemoryTag, d);
        LiteralAppend(s, i, MemoryTag + d, " ");
        Some(d)
      else None
    else None
  }

  /** Wherever the tag, a digit run and a space occur at `i`, `MemoryAt` captures that run. */
  lemma MemoryAtComplete(s: string, i: nat, d: string)
    requires IsRun(d, IsDigit) && LiteralAt(s, i, MemoryTag + d + " ")
    ensures MemoryAt(s, i) == Some(d)
  {
    LiteralAppend(s, i, MemoryTag + d, " ");
    LiteralAppend(s, i, MemoryTag, d);
    RunLengthOf(s, i + |MemoryTag|, d, IsDigit);
  }

  /** `Oink Log Entry Complete` anchored at `i`. */
  function CompleteAt(s: string, i: nat): Option<()>
  {
    if LiteralAt(s, i, CompleteTag) then Some(()) else None
  }

  /**
   * `extract_pid_from_line`'s scan: the digits of the first `rails[<digits>]` tag,
   * absent exactly when no position of the line carries such a tag.
   */
  function ExtractPid(line: string): (r: Option<string>)
    ensures r.None? <==> forall j :: 0 <= j < |line| ==> PidAt(line, j).None?
    ensures r.Some? ==> |r.value| > 0 && forall k :: 0 <= k < |r.value| ==> IsDigit(r.value[k])
    ensures r.Some? ==> exists j :: 0 <= j < |line| && PidAt(line, j) == r && forall k :: 0 <= k < j ==> PidAt(line, k).None?
  {
    match Leftmost(line, PidAt, 0)
    case None => None
    case Some(hit) => Some(hit.1)
  }

  /** `$1` (path, `#`, method) of the first `Oink Action:` match, absent exactly when no position matches. */
  function MatchAction(line: string): (r: Option<string>)
    ensures r.None? <==> forall j :: 0 <= j < |line| ==> ActionAt(line, j).None?
    ensures r.Some? ==>
      exists j :: 0 <= j < |line| && ActionAt(line, j).Some? &&
        r.value == ActionAt(line, j).value.0 + "#" + ActionAt(line, j).value.1 &&
        forall k :: 0 <= k < j ==> ActionAt(line, k).None?
  {
    match Leftmost(line, ActionAt, 0)
    case None => None
    case Some(hit) => Some(hit.1.0 + "#" + hit.1.1)
  }

  /** Value of a decimal digit. */
  function DigitValue(c: char): nat
    requires IsDigit(c)
  {
    (c as int - '0' as int) as nat
  }

  /** The digit character of a value below ten. */
  function DigitChar(d: nat): (c: char)
    requires d < 10
    ensures IsDigit(c) && DigitValue(c) == d
  {
    ('0' as int + d) as char
  }

  /** `String#to_i` on a string of decimal digits. */
  function DecimalValue(s: string): nat
    requires forall k :: 0 <= k < |s| ==> IsDigit(s[k])
  {
    if s == [] then 0 else 10 * DecimalValue(s[..|s| - 1]) + DigitValue(s[|s| - 1])
  }

  /** The shortest decimal spelling of `n`. */
  function Decimal(n: nat): (s: string)
    ensures |s| > 0 && forall k :: 0 <= k < |s| ==> IsDigit(s[k])
  {
    if n < 10 then [DigitChar(n)] else Decimal(n / 10) + [DigitChar(n % 10)]
  }

  /** Reading back the decimal spelling of a number gives the number. */
  lemma {:induction false} DecimalRoundTrip(n: nat)
    ensures DecimalValue(Decimal(n)) == n
  {
    if n >= 10 {
      var s := Decimal(n);
      assert s[..|s| - 1] == Decimal(n / 10);
      DecimalRoundTrip(n / 10);
    }
  }

  /** `$1.to_i` of the first `Memory usage:` match, absent exactly when no position matches. */
  function MatchMemory(line: string): (r: Option<nat>)
    ensures r.None? <==> forall j :: 0 <= j < |line| ==> MemoryAt(line, j).None?
    ensures r.Some? ==>
      exists j :: 0 <= j < |line| && MemoryAt(line, j).Some? &&
        r.value == DecimalValue(MemoryAt(line, j).value) && forall k :: 0 <= k < j ==> MemoryAt(line, k).None?
  {
    match Leftmost(line, MemoryAt, 0)
    case None => None
    case Some(hit) => Some(DecimalValue(hit.1))
  }

  /** Whether `line =~ /Oink Log Entry Complete/` succeeds: the phrase occurs somewhere in the line. */
  function HasCompleteMarker(line: string): (b: bool)
    ensures b <==> exists j :: 0 <= j < |line| && LiteralAt(line, j, CompleteTag)
  {
    var hit := Leftmost(line, CompleteAt, 0);
    if hit.Some? then
      assert CompleteAt(line, hit.value.0).Some?;
      true
    else
      assert forall j :: 0 <= j < |line| ==> !LiteralAt(line, j, CompleteTag) by {
        forall j | 0 <= j < |line| ensures !LiteralAt(line, j, CompleteTag) {
          assert CompleteAt(line, j).None?;
        }
      }
      false
  }

  /** The marker a line carries, as the report's `if`/`elsif` chain decides it. */
  datatype Marker = ActionMark(action: string) | MemoryMark(reading: nat) | CompleteMark | NoMarker

  /**
   * The dispatch order of the report: an action marker wins over a memory
   * marker, which wins over a completion marker; a line with none of them
   * carries no marker.
   */
  function Classify(line: string): (m: Marker)
    ensures m.ActionMark? <==> MatchAction(line).Some?
    ensures m.MemoryMark? <==> MatchAction(line).None? && MatchMemory(line).Some?
    ensures m.CompleteMark? <==> MatchAction(line).None? && MatchMemory(line).None? && HasCompleteMarker(line)
    ensures m.ActionMark? ==> m.action == MatchAction(line).value
    ensures m.MemoryMark? ==> m.reading == MatchMemory(line).value
  {
    match MatchAction(line)
    case Some(a) => ActionMark(a)
    case None =>
      match MatchMemory(line)
      case Some(n) => MemoryMark(n)
      case None => if HasCompleteMarker(line) then CompleteMark else NoMarker
  }
}
