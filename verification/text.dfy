/** The handful of java.lang.String operations the driver relies on, for
    literal (metacharacter-free) patterns: `startsWith`, `endsWith`,
    `indexOf`, `split(sep, 2)` and `replaceFirst`, plus the character
    classes its regular expressions use. */
module Text {
  import opened Common

  predicate StartsWith(s: string, prefix: string) {
    |prefix| <= |s| && s[..|prefix|] == prefix
  }

  predicate EndsWith(s: string, suffix: string) {
    |suffix| <= |s| && s[|s| - |suffix|..] == suffix
  }

  /** `pat` occurs in `s` at index `k`. */
  predicate OccursAt(s: string, pat: string, k: int) {
    0 <= k && k + |pat| <= |s| && s[k..k + |pat|] == pat
  }

  /** `pat` occurs nowhere in `s` strictly before index `k`. */
  predicate NoneBefore(s: string, pat: string, k: int) {
    forall j :: 0 <= j < k ==> !OccursAt(s, pat, j)
  }

  /** The leftmost occurrence of `pat` in `s` at or after `from`, as
      `String.indexOf(pat, from)` finds it. */
  function IndexOfFrom(s: string, pat: string, from: nat): (r: Option<nat>)
    requires |pat| > 0
    decreases |s| - from
    ensures r.Some? ==> from <= r.value && OccursAt(s, pat, r.value)
    ensures forall k :: from <= k && OccursAt(s, pat, k) ==> r.Some? && r.value <= k
  {
    if from + |pat| > |s| then None
    else if s[from..from + |pat|] == pat then Some(from)
    else IndexOfFrom(s, pat, from + 1)
  }

  function IndexOf(s: string, pat: string): (r: Option<nat>)
    requires |pat| > 0
    ensures r.Some? ==> OccursAt(s, pat, r.value) && NoneBefore(s, pat, r.value)
    ensures r.None? <==> NoneBefore(s, pat, |s| + 1)
  {
    IndexOfFrom(s, pat, 0)
  }

  /** `s.split(sep, 2)` for a separator without regex metacharacters:
      one part when `sep` does not occur, otherwise the text before and
      after its first occurrence. */
  function SplitFirst(s: string, sep: string): (parts: seq<string>)
    requires |sep| > 0
    ensures 1 <= |parts| <= 2
    ensures |parts| == 1 <==> NoneBefore(s, sep, |s| + 1)
    ensures |parts| == 1 ==> parts[0] == s
    ensures |parts| == 2 ==> s == parts[0] + sep + parts[1] && NoneBefore(s, sep, |parts[0]|)
  {
    match IndexOf(s, sep)
    case None => [s]
    case Some(k) =>
      assert s == s[..k] + sep + s[k + |sep|..];
      [s[..k], s[k + |sep|..]]
  }

  /** `s.replaceFirst(pat, rep)` for a pattern and replacement without
      regex metacharacters. */
  function ReplaceFirst(s: string, pat: string, rep: string): (r: string)
    requires |pat| > 0
    ensures NoneBefore(s, pat, |s| + 1) ==> r == s
  {
    match IndexOf(s, pat)
    case None => s
    case Some(k) => s[..k] + rep + s[k + |pat|..]
  }

  /** Where the leftmost occurrence is known, `replaceFirst` splices there. */
  lemma ReplaceFirstAt(s: string, pat: string, rep: string, k: nat)
    requires |pat| > 0 && OccursAt(s, pat, k) && NoneBefore(s, pat, k)
    ensures ReplaceFirst(s, pat, rep) == s[..k] + rep + s[k + |pat|..]
  {
  }

  /** A pattern that contains `c` cannot occur in a text that lacks it. */
  lemma AbsentChar(s: string, pat: string, c: char, n: int)
    requires c in pat && c !in s
    ensures NoneBefore(s, pat, n)
  {
    var m :| 0 <= m < |pat| && pat[m] == c;
    forall j | 0 <= j < n
      ensures !OccursAt(s, pat, j)
    {
      if j + |pat| <= |s| {
        assert s[j..j + |pat|][m] == s[j + m];
      }
    }
  }

  /** Number of occurrences of the character `c` in `s`. */
  function Count(s: string, c: char): (n: nat)
    ensures n <= |s|
    ensures n == 0 <==> c !in s
  {
    if s == [] then 0 else (if s[0] == c then 1 else 0) + Count(s[1..], c)
  }

  lemma {:induction false} CountConcat(a: string, b: string, c: char)
    ensures Count(a + b, c) == Count(a, c) + Count(b, c)
  {
    if a != [] {
      assert (a + b)[1..] == a[1..] + b;
      CountConcat(a[1..], b, c);
    } else {
      assert a + b == b;
    }
  }

  // Character classes of java.util.regex.

  /** `\s`: space, tab, line feed, vertical tab, form feed, carriage return. */
  predicate IsSpace(c: char) {
    c == ' ' || c == '\t' || c == '\n' || c as int == 0x0B || c as int == 0x0C || c == '\r'
  }

  /** The characters `.` does not match: the Java line terminators. */
  predicate IsLineTerminator(c: char) {
    c == '\n' || c == '\r' || c as int == 0x85 || c as int == 0x2028 || c as int == 0x2029
  }

  predicate IsDigit(c: char) {
    '0' <= c <= '9'
  }

  /** `[a-z0-9]` */
  predicate IsLowerAlnum(c: char) {
    'a' <= c <= 'z' || IsDigit(c)
  }

  /** The first index at or after `i` whose character is not a digit. */
  function SpanDigits(s: string, i: nat): (j: nat)
    requires i <= |s|
    decreases |s| - i
    ensures i <= j <= |s|
    ensures forall m :: i <= m < j ==> IsDigit(s[m])
    ensures j < |s| ==> !IsDigit(s[j])
  {
    if i == |s| || !IsDigit(s[i]) then i else SpanDigits(s, i + 1)
  }

  /** The first index at or after `i` whose character is not whitespace. */
  function SpanSpace(s: string, i: nat): (j: nat)
    requires i <= |s|
    decreases |s| - i
    ensures i <= j <= |s|
    ensures forall m :: i <= m < j ==> IsSpace(s[m])
    ensures j < |s| ==> !IsSpace(s[j])
  {
    if i == |s| || !IsSpace(s[i]) then i else SpanSpace(s, i + 1)
  }

  /** The first index at or after `i` whose character is not in `[a-z0-9]`. */
  function SpanLowerAlnum(s: string, i: nat): (j: nat)
    requires i <= |s|
    decreases |s| - i
    ensures i <= j <= |s|
    ensures forall m :: i <= m < j ==> IsLowerAlnum(s[m])
    ensures j < |s| ==> !IsLowerAlnum(s[j])
  {
    if i == |s| || !IsLowerAlnum(s[i]) then i else SpanLowerAlnum(s, i + 1)
  }
}
