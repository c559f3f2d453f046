/** The date pattern `\d{4}[/\-年]\d{1,2}[/\-月]\d{1,2}[日]?` and Python's `re.search` with it. */
module DatePattern {
  import opened Lists

  /** `\d`, restricted to the ASCII digits (see README). */
  predicate IsDigit(c: char) {
    '0' <= c <= '9'
  }

  /** The class `[/\-年]` after the year. */
  predicate IsYearSeparator(c: char) {
    c == '/' || c == '-' || c == '年'
  }

  /** The class `[/\-月]` after the month. */
  predicate IsMonthSeparator(c: char) {
    c == '/' || c == '-' || c == '月'
  }

  /** The optional `[日]` after the day. */
  const DaySuffix := '日'

  /** The text of `s` from `i` on starts with a word of the pattern whose month has `m` digits,
      whose day has `d` digits and which has `k` day suffixes (0 or 1). */
  predicate ShapedAs(s: string, i: nat, m: nat, d: nat, k: nat) {
    1 <= m <= 2 && 1 <= d <= 2 && k <= 1 && i + 6 + m + d + k <= |s| &&
    IsDigit(s[i]) && IsDigit(s[i + 1]) && IsDigit(s[i + 2]) && IsDigit(s[i + 3]) &&
    IsYearSeparator(s[i + 4]) &&
    IsDigit(s[i + 5]) && (m == 2 ==> IsDigit(s[i + 6])) &&
    IsMonthSeparator(s[i + 5 + m]) &&
    IsDigit(s[i + 6 + m]) && (d == 2 ==> IsDigit(s[i + 7 + m])) &&
    (k == 1 ==> s[i + 6 + m + d] == DaySuffix)
  }

  /** `s[i..i + n]` is a word of the pattern: the declarative reading of the regular expression. */
  ghost predicate MatchesAt(s: string, i: nat, n: nat) {
    exists m: nat, d: nat, k: nat :: n == 6 + m + d + k && ShapedAs(s, i, m, d, k)
  }

  /** The greedy `\d{1,2}` at `j`: the number of digits it takes. */
  function DigitRun(s: string, j: nat): (n: nat)
    requires j <= |s|
    ensures n <= 2 && j + n <= |s|
    ensures forall t :: j <= t < j + n ==> IsDigit(s[t])
    ensures n < 2 ==> j + n == |s| || !IsDigit(s[j + n])
  {
    if j < |s| && IsDigit(s[j]) then
      (if j + 1 < |s| && IsDigit(s[j + 1]) then 2 else 1)
    else 0
  }

  /** The length of the match the regular-expression engine finds at position `i`, if any. The
      quantifiers are greedy; backtracking the month to one digit never helps, because the
      character after it would then be a digit and no digit is a separator. */
  function MatchAt(s: string, i: nat): (r: Option<nat>)
    ensures r.Some? ==> 8 <= r.value <= 11 && i + r.value <= |s|
    ensures r.Some? ==> IsDigit(s[i]) && IsYearSeparator(s[i + 4]) &&
                        (IsDigit(s[i + r.value - 1]) || s[i + r.value - 1] == DaySuffix)
  {
    if i + 5 <= |s| && IsDigit(s[i]) && IsDigit(s[i + 1]) && IsDigit(s[i + 2]) && IsDigit(s[i + 3])
       && IsYearSeparator(s[i + 4]) then
      var m := DigitRun(s, i + 5);
      if m > 0 && i + 5 + m < |s| && IsMonthSeparator(s[i + 5 + m]) then
        var d := DigitRun(s, i + 6 + m);
        if d > 0 then
          Some(6 + m + d + (if i + 6 + m + d < |s| && s[i + 6 + m + d] == DaySuffix then 1 else 0))
        else None
      else None
    else None
  }

  /** The engine's match at `i` is a word of the pattern, there is one exactly when some word of the
      pattern starts at `i`, and it is the longest such word. */
  lemma MatchAtIsLongest(s: string, i: nat)
    ensures MatchAt(s, i).Some? ==> MatchesAt(s, i, MatchAt(s, i).value)
    ensures forall n: nat :: MatchesAt(s, i, n) ==> MatchAt(s, i).Some? && n <= MatchAt(s, i).value
  {
    if MatchAt(s, i).Some? {
      var m := DigitRun(s, i + 5);
      var d := DigitRun(s, i + 6 + m);
      var k := if i + 6 + m + d < |s| && s[i + 6 + m + d] == DaySuffix then 1 else 0;
      assert ShapedAs(s, i, m, d, k);
    }
    forall n: nat | MatchesAt(s, i, n)
      ensures MatchAt(s, i).Some? && n <= MatchAt(s, i).value
    {
      var m': nat, d': nat, k': nat :| n == 6 + m' + d' + k' && ShapedAs(s, i, m', d', k');
      assert DigitRun(s, i + 5) == m';
      assert DigitRun(s, i + 6 + m') >= d';
    }
  }

  /** `re.search` from position `i`: the leftmost position where the pattern matches, with the
      length of the match found there. */
  function SearchFrom(s: string, i: nat): (r: Option<(nat, nat)>)
    requires i <= |s|
    ensures r.Some? ==> i <= r.value.0 && MatchesAt(s, r.value.0, r.value.1)
    ensures r.Some? ==> forall j: nat, n: nat :: i <= j < r.value.0 ==> !MatchesAt(s, j, n)
    ensures r.Some? ==> forall n: nat :: MatchesAt(s, r.value.0, n) ==> n <= r.value.1
    ensures r.None? ==> forall j: nat, n: nat :: i <= j ==> !MatchesAt(s, j, n)
    decreases |s| - i
  {
    MatchAtIsLongest(s, i);
    match MatchAt(s, i)
    case Some(n) => Some((i, n))
    case None =>
      if i == |s| then None
      else SearchFrom(s, i + 1)
  }

  /** `re.search(pattern, text)` followed by `.group(0)`: the leftmost, longest date-shaped text. */
  function SearchDate(text: string): (r: Option<string>)
    ensures r.Some? ==> exists i: nat, n: nat :: MatchesAt(text, i, n) && r.value == text[i..i + n] &&
                          (forall j: nat, n': nat :: j < i ==> !MatchesAt(text, j, n')) &&
                          (forall n': nat :: MatchesAt(text, i, n') ==> n' <= n)
    ensures r.None? ==> forall i: nat, n: nat :: !MatchesAt(text, i, n)
  {
    match SearchFrom(text, 0)
    case Some((i, n)) => Some(text[i..i + n])
    case None => None
  }

  /** The search skips text before the date and takes the day suffix: in "公開 2024年3月15日" it
      finds "2024年3月15日". */
  lemma SearchDateExample()
    ensures SearchDate("公開 2024年3月15日") == Some("2024年3月15日")
  {
    var s := "公開 2024年3月15日";
    assert MatchAt(s, 0).None? && MatchAt(s, 1).None? && MatchAt(s, 2).None?;
    assert MatchAt(s, 3) == Some(10);
    assert SearchFrom(s, 2) == SearchFrom(s, 3) == Some((3, 10));
    assert s[3..13] == "2024年3月15日";
  }
}
