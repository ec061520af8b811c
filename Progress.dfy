/** Progress extraction: `parse_progress` finds the leftmost match of
    `(\d+(\.\d+)?)%` in an output line and converts the group to a number;
    the download loops move the progress bar only on `[download]` lines
    with a `%` for which it found one. */
module Progress {
  import opened Text
  import opened Wrappers

  // ---------------------------------------------------------------------
  // The language of the pattern.

  /** `d` splits `t` into digits, a dot and digits, both parts non-empty. */
  ghost predicate DecimalSplit(t: string, d: int) {
    0 < d < |t| - 1 && t[d] == '.' && AllDigits(t[..d]) && AllDigits(t[d + 1..])
  }

  /** The strings group 1 `\d+(\.\d+)?` matches. */
  ghost predicate IsDecimal(t: string) {
    (|t| > 0 && AllDigits(t)) || exists d :: DecimalSplit(t, d)
  }

  /** The pattern matches starting at `i`, with its `%` at `k`. */
  ghost predicate MatchSpan(s: string, i: int, k: int) {
    0 <= i < k < |s| && s[k] == '%' && IsDecimal(s[i..k])
  }

  ghost predicate NoMatchAt(s: string, i: int) {
    forall k :: !MatchSpan(s, i, k)
  }

  /** The match `re.search` reports: the one that starts leftmost. */
  ghost predicate LeftmostMatch(s: string, i: int, k: int) {
    MatchSpan(s, i, k) && forall j :: 0 <= j < i ==> NoMatchAt(s, j)
  }

  /** Some digit is immediately followed by `%`. */
  ghost predicate HasDigitPercent(s: string) {
    exists p :: 0 <= p < |s| - 1 && IsDigit(s[p]) && s[p + 1] == '%'
  }

  // ---------------------------------------------------------------------
  // The matcher, greedy as the regex engine is.

  /** End of the run of digits that starts at `i`. */
  function DigitRunEnd(s: string, i: nat): (j: nat)
    requires i <= |s|
    ensures i <= j <= |s| && AllDigits(s[i..j]) && (j == |s| || !IsDigit(s[j]))
    decreases |s| - i
  {
    if i < |s| && IsDigit(s[i]) then
      var j := DigitRunEnd(s, i + 1);
      assert s[i..j] == [s[i]] + s[i + 1..j];
      j
    else i
  }

  /** Any maximal run of digits from `i` is the one `DigitRunEnd` finds. */
  lemma {:induction false} DigitRunEndIs(s: string, i: nat, m: nat)
    requires i <= m <= |s| && AllDigits(s[i..m]) && (m == |s| || !IsDigit(s[m]))
    ensures DigitRunEnd(s, i) == m
    decreases m - i
  {
    if i < m {
      assert IsDigit(s[i..m][0]);
      assert s[i + 1..m] == s[i..m][1..];
      DigitRunEndIs(s, i + 1, m);
    }
  }

  /** Where the match starting at `i` puts its `%`, if there is one: the
      integer digits, then a dot and more digits if they are there, then
      `%`. A shorter digit run can never be followed by `.` or `%`, so
      backtracking finds nothing more. */
  function MatchEndAt(s: string, i: nat): (r: Option<nat>)
    requires i <= |s|
    ensures r.Some? ==> MatchSpan(s, i, r.value)
  {
    var j := DigitRunEnd(s, i);
    if j == i then None
    else if j < |s| && s[j] == '%' then Some(j)
    else if j + 1 < |s| && s[j] == '.' && IsDigit(s[j + 1]) then
      var k := DigitRunEnd(s, j + 1);
      if k < |s| && s[k] == '%' then
        assert DecimalSplit(s[i..k], j - i) by {
          assert s[i..k][..j - i] == s[i..j];
          assert s[i..k][j - i + 1..] == s[j + 1..k];
        }
        Some(k)
      else None
    else None
  }

  /** Every match of the pattern at `i` is the one `MatchEndAt` finds. */
  lemma MatchEndAtComplete(s: string, i: nat, k: nat)
    requires MatchSpan(s, i, k)
    ensures MatchEndAt(s, i) == Some(k)
  {
    var t := s[i..k];
    if |t| > 0 && AllDigits(t) {
      DigitRunEndIs(s, i, k);
    } else {
      var d :| DecimalSplit(t, d);
      assert s[i..i + d] == t[..d];
      assert s[i + d + 1..k] == t[d + 1..];
      DigitRunEndIs(s, i, i + d);
      assert IsDigit(t[d + 1..][0]);
      DigitRunEndIs(s, i + d + 1, k);
    }
  }

  /** So `MatchEndAt` is exact: it returns `k` iff the pattern matches from
      `i` to `k`. */
  lemma MatchEndAtExact(s: string, i: nat)
    requires i <= |s|
    ensures forall k :: MatchSpan(s, i, k) <==> MatchEndAt(s, i) == Some(k)
  {
    forall k | MatchSpan(s, i, k) ensures MatchEndAt(s, i) == Some(k) {
      MatchEndAtComplete(s, i, k);
    }
  }

  /** `re.search` from position `i` on: the first start with a match. */
  function SearchFrom(s: string, i: nat): (r: Option<(nat, nat)>)
    requires i <= |s|
    ensures r.Some? ==> i <= r.value.0 && MatchSpan(s, r.value.0, r.value.1)
                        && forall j :: i <= j < r.value.0 ==> NoMatchAt(s, j)
    ensures r.None? ==> forall j :: i <= j < |s| ==> NoMatchAt(s, j)
    decreases |s| - i
  {
    if i == |s| then None
    else
      MatchEndAtExact(s, i);
      match MatchEndAt(s, i)
      case Some(k) => Some((i, k))
      case None => SearchFrom(s, i + 1)
  }

  /** The number a match of group 1 denotes, exactly (Python's `float` rounds
      it to the nearest double). */
  function DecimalValue(t: string): real
    requires IsDecimal(t)
  {
    var d := DigitRunEnd(t, 0);
    if d == |t| then
      DigitsValue(t) as real
    else
      assert DecimalSplit(t, d) by {
        var e :| DecimalSplit(t, e);
        assert t[0..e] == t[..e];
        DigitRunEndIs(t, 0, e);
      }
      DigitsValue(t[..d]) as real + DigitsValue(t[d + 1..]) as real / Pow10(|t| - d - 1) as real
  }

  function Pow10(n: nat): (p: nat)
    ensures p > 0
  {
    if n == 0 then 1 else 10 * Pow10(n - 1)
  }

  /** Two leftmost matches are the same match. */
  lemma LeftmostUnique(s: string, i: int, k: int, i': int, k': int)
    requires LeftmostMatch(s, i, k) && LeftmostMatch(s, i', k')
    ensures i == i' && k == k'
  {
    assert i' < i ==> NoMatchAt(s, i');
    assert i < i' ==> NoMatchAt(s, i);
    MatchEndAtExact(s, i);
  }

  /** `parse_progress(line)`: the value of the leftmost match, or `None`. */
  function ParseProgress(line: string): (r: Option<real>)
    ensures r.Some? <==> exists i, k :: LeftmostMatch(line, i, k)
    ensures forall i, k :: LeftmostMatch(line, i, k) ==> r == Some(DecimalValue(line[i..k]))
  {
    match SearchFrom(line, 0)
    case None =>
      assert forall i, k :: MatchSpan(line, i, k) ==> NoMatchAt(line, i);
      None
    case Some((i, k)) =>
      assert LeftmostMatch(line, i, k);
      forall i', k' | LeftmostMatch(line, i', k') ensures i' == i && k' == k {
        LeftmostUnique(line, i, k, i', k');
      }
      Some(DecimalValue(line[i..k]))
  }

  /** `parse_progress` finds nothing exactly when no digit is immediately
      followed by `%`. */
  lemma ParseProgressNoneIff(line: string)
    ensures ParseProgress(line).None? <==> !HasDigitPercent(line)
  {
    if HasDigitPercent(line) {
      var p :| 0 <= p < |line| - 1 && IsDigit(line[p]) && line[p + 1] == '%';
      assert line[p..p + 1] == [line[p]];
      assert MatchSpan(line, p, p + 1);
    }
    if ParseProgress(line).Some? {
      var i, k :| LeftmostMatch(line, i, k);
      var t := line[i..k];
      if !(|t| > 0 && AllDigits(t)) {
        var d :| DecimalSplit(t, d);
        assert IsDigit(t[d + 1..][|t| - d - 2]);
      }
      assert IsDigit(line[k - 1]) by { assert line[k - 1] == t[|t| - 1]; }
    }
  }

  /** A line whose first digit starts a number followed by `%` reports that
      number, whatever follows. */
  lemma FirstNumberReported(pre: string, t: string, post: string)
    requires forall j :: 0 <= j < |pre| ==> !IsDigit(pre[j])
    requires IsDecimal(t)
    ensures ParseProgress(pre + t + "%" + post) == Some(DecimalValue(t))
  {
    var s := pre + t + "%" + post;
    var i, k := |pre|, |pre| + |t|;
    assert s[i..k] == t;
    assert MatchSpan(s, i, k);
    forall j | 0 <= j < i ensures NoMatchAt(s, j) {
      assert s[j] == pre[j];
      forall k' | j < k' < |s| ensures !IsDecimal(s[j..k']) {
        assert s[j..k'][0] == pre[j];
      }
    }
    assert LeftmostMatch(s, i, k);
  }

  /** The number 42.5 as the pattern's group reads it. */
  lemma DecimalValueExample()
    ensures IsDecimal("42.5") && DecimalValue("42.5") == 42.5
  {
    assert DecimalSplit("42.5", 2);
  }

  /** A yt-dlp progress line such as `[download]  42.5% of 10.00MiB`
      reports 42.5, whatever its remainder. */
  lemma DownloadLineExample(rest: string)
    ensures ParseProgress("[download]  " + "42.5" + "%" + rest) == Some(42.5)
  {
    DecimalValueExample();
    FirstNumberReported("[download]  ", "42.5", rest);
  }

  // ---------------------------------------------------------------------
  // The line gate of the download loops.

  /** The value a line moves the bar to: only a line with `[download]`
      and `%` in it for which `parse_progress` finds a number. */
  function GatedProgress(line: string): Option<real> {
    if Contains(line, "[download]") && Contains(line, "%") then ParseProgress(line) else None
  }

  /** The `"%" in line` test is implied by a successful parse. */
  lemma PercentTestRedundant(line: string)
    ensures ParseProgress(line).Some? ==> Contains(line, "%")
  {
    ParseProgressNoneIff(line);
    DigitPercentContainsPercent(line);
  }

  lemma DigitPercentContainsPercent(line: string)
    ensures HasDigitPercent(line) ==> Contains(line, "%")
  {
    if HasDigitPercent(line) {
      var p :| 0 <= p < |line| - 1 && IsDigit(line[p]) && line[p + 1] == '%';
      assert OccursAt(line, "%", p + 1);
      ContainsIff(line, "%");
    }
  }

  /** A line moves the bar exactly when it contains `[download]` and a digit
      immediately followed by `%`. */
  lemma GatedProgressIff(line: string)
    ensures GatedProgress(line).Some? <==> Contains(line, "[download]") && HasDigitPercent(line)
  {
    ParseProgressNoneIff(line);
    PercentTestRedundant(line);
  }

  /** The bar's value after a run of lines, starting from `p`. */
  function ProgressAfter(p: real, lines: seq<string>): real {
    if lines == [] then p
    else
      match GatedProgress(lines[|lines| - 1])
      case Some(v) => v
      case None => ProgressAfter(p, lines[..|lines| - 1])
  }

  /** One more line moves the bar only if it passes the gate. */
  lemma ProgressAfterStep(p: real, lines: seq<string>, i: nat)
    requires i < |lines|
    ensures ProgressAfter(p, lines[..i + 1])
         == if GatedProgress(lines[i]).Some? then GatedProgress(lines[i]).value else ProgressAfter(p, lines[..i])
  {
    assert lines[..i + 1][..i] == lines[..i];
  }

  /** Lines that pass no gate leave the bar where it was. */
  lemma {:induction false} ProgressUnchangedWithoutGated(p: real, lines: seq<string>)
    requires forall j :: 0 <= j < |lines| ==> GatedProgress(lines[j]).None?
    ensures ProgressAfter(p, lines) == p
  {
    if lines != [] {
      ProgressUnchangedWithoutGated(p, lines[..|lines| - 1]);
    }
  }

  /** Otherwise the bar shows the value of the last line that passes. */
  lemma {:induction false} ProgressTakesLastGated(p: real, lines: seq<string>, i: nat)
    requires i < |lines| && GatedProgress(lines[i]).Some?
    requires forall j :: i < j < |lines| ==> GatedProgress(lines[j]).None?
    ensures ProgressAfter(p, lines) == GatedProgress(lines[i]).value
  {
    if i < |lines| - 1 {
      ProgressTakesLastGated(p, lines[..|lines| - 1], i);
    }
  }
}
