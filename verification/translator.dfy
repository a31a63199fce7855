/** The translation `JdbcPreparedStatement.executeQuery()` performs before it
    sends anything: bind the stored literals to the `?` placeholders of the
    template, one at a time from position 1 upwards, rewriting `=?`/`!=?`
    for the NULL sentinel, then cut a `GROUP BY` clause whose tail looks like
    a qualified identifier. Stated here as pure functions; the statement
    class runs the same steps in a loop. */
module Translator {
  import opened Common
  import opened Text
  import opened Literals

  const Placeholder: string := "?"
  const GroupBy: string := "GROUP BY"

  /** One turn of the loop: bind `v` to the first remaining `?` of `t`.
      For the NULL sentinel the text before that `?` decides whether
      `!=?` becomes ` is NOT NULL `, `=?` becomes ` is NULL `, or the `?`
      becomes the sentinel itself. */
  function Substitute(t: string, v: string): string
  {
    if v == NullSentinel then
      var part := SplitFirst(t, Placeholder)[0];
      if EndsWith(part, "!=") then ReplaceFirst(t, "!=?", " is NOT NULL ")
      else if EndsWith(part, "=") then ReplaceFirst(t, "=?", " is NULL ")
      else ReplaceFirst(t, Placeholder, v)
    else ReplaceFirst(t, Placeholder, v)
  }

  /** The loop over positions 1..n, applied to the values bound there. */
  function SubstituteAll(t: string, vals: seq<string>): string
    decreases vals
  {
    if vals == [] then t else SubstituteAll(Substitute(t, vals[0]), vals[1..])
  }

  /** A pattern ending in `?` cannot occur before the first `?` of `a + "?" + b`. */
  lemma PatternNotBefore(a: string, b: string, pat: string)
    requires |pat| > 0 && pat[|pat| - 1] == '?' && '?' !in a
    ensures NoneBefore(a + "?" + b, pat, |a| + 1 - |pat|)
  {
    var t := a + "?" + b;
    forall j | 0 <= j < |a| + 1 - |pat|
      ensures !OccursAt(t, pat, j)
    {
      if j + |pat| <= |t| {
        assert t[j..j + |pat|][|pat| - 1] == t[j + |pat| - 1] == a[j + |pat| - 1];
      }
    }
  }

  /** Splitting at, and replacing, the first `?` of `a + "?" + b`. */
  lemma PlaceholderAt(a: string, b: string, v: string)
    requires '?' !in a
    ensures SplitFirst(a + "?" + b, Placeholder)[0] == a
    ensures ReplaceFirst(a + "?" + b, Placeholder, v) == a + v + b
  {
    var t := a + "?" + b;
    PatternNotBefore(a, b, Placeholder);
    assert OccursAt(t, Placeholder, |a|);
    ReplaceFirstAt(t, Placeholder, v, |a|);
    assert t[..|a|] == a && t[|a| + 1..] == b;
  }

  /** Replacing the first `!=?` when the first `?` follows a `!=`. */
  lemma NotEqualAt(a: string, b: string)
    requires '?' !in a && EndsWith(a, "!=")
    ensures ReplaceFirst(a + "?" + b, "!=?", " is NOT NULL ") == a[..|a| - 2] + " is NOT NULL " + b
  {
    var t := a + "?" + b;
    PatternNotBefore(a, b, "!=?");
    assert t[|a| - 2..|a| + 1] == a[|a| - 2..] + "?";
    assert OccursAt(t, "!=?", |a| - 2);
    ReplaceFirstAt(t, "!=?", " is NOT NULL ", |a| - 2);
    assert t[..|a| - 2] == a[..|a| - 2] && t[|a| + 1..] == b;
  }

  /** Replacing the first `=?` when the first `?` follows a `=`. */
  lemma EqualAt(a: string, b: string)
    requires '?' !in a && EndsWith(a, "=")
    ensures ReplaceFirst(a + "?" + b, "=?", " is NULL ") == a[..|a| - 1] + " is NULL " + b
  {
    var t := a + "?" + b;
    PatternNotBefore(a, b, "=?");
    assert t[|a| - 1..|a| + 1] == a[|a| - 1..] + "?";
    assert OccursAt(t, "=?", |a| - 1);
    ReplaceFirstAt(t, "=?", " is NULL ", |a| - 1);
    assert t[..|a| - 1] == a[..|a| - 1] && t[|a| + 1..] == b;
  }

  /** What one substitution does, case by case, for a text whose first `?`
      follows `a`. Together with SubstituteWithoutPlaceholder this
      characterises Substitute completely. */
  lemma SubstituteAt(a: string, b: string, v: string)
    requires '?' !in a
    ensures v != NullSentinel ==>
      Substitute(a + "?" + b, v) == a + v + b
    ensures v == NullSentinel && EndsWith(a, "!=") ==>
      Substitute(a + "?" + b, v) == a[..|a| - 2] + " is NOT NULL " + b
    ensures v == NullSentinel && EndsWith(a, "=") && !EndsWith(a, "!=") ==>
      Substitute(a + "?" + b, v) == a[..|a| - 1] + " is NULL " + b
    ensures v == NullSentinel && !EndsWith(a, "=") ==>
      Substitute(a + "?" + b, v) == a + NullSentinel + b
  {
    PlaceholderAt(a, b, v);
    if EndsWith(a, "!=") {
      NotEqualAt(a, b);
      assert EndsWith(a, "=");
    }
    if EndsWith(a, "=") {
      EqualAt(a, b);
    }
  }

  /** `setNull` stores `null`, not the sentinel, so even after `=` or `!=`
      it is substituted verbatim and no IS NULL rewrite happens. */
  lemma SetNullNotRewritten(a: string, b: string)
    requires '?' !in a
    ensures Substitute(a + "?" + b, NullText) == a + NullText + b
  {
    NullTextIsNotSentinel();
    SubstituteAt(a, b, NullText);
  }

  /** Once no `?` remains, further bindings leave the text as it is. */
  lemma SubstituteWithoutPlaceholder(t: string, v: string)
    requires '?' !in t
    ensures Substitute(t, v) == t
  {
    if v == NullSentinel {
      var part := SplitFirst(t, Placeholder)[0];
      if EndsWith(part, "!=") {
        AbsentChar(t, "!=?", '?', |t| + 1);
      } else if EndsWith(part, "=") {
        AbsentChar(t, "=?", '?', |t| + 1);
      } else {
        AbsentChar(t, Placeholder, '?', |t| + 1);
      }
    } else {
      AbsentChar(t, Placeholder, '?', |t| + 1);
    }
  }

  lemma {:induction false} SubstituteAllWithoutPlaceholder(t: string, vals: seq<string>)
    requires '?' !in t
    ensures SubstituteAll(t, vals) == t
  {
    if vals != [] {
      SubstituteWithoutPlaceholder(t, vals[0]);
      SubstituteAllWithoutPlaceholder(t, vals[1..]);
    }
  }

  /** A text with a `?` splits at its first one. */
  lemma FirstPlaceholder(t: string) returns (a: string, b: string)
    requires '?' in t
    ensures t == a + "?" + b && '?' !in a
  {
    var parts := SplitFirst(t, Placeholder);
    if |parts| == 1 {
      var m :| 0 <= m < |t| && t[m] == '?';
      assert OccursAt(t, Placeholder, m);
    }
    a, b := parts[0], parts[1];
    if '?' in a {
      var m :| 0 <= m < |a| && a[m] == '?';
      assert t[m] == '?';
      assert OccursAt(t, Placeholder, m);
    }
  }

  /** What one substitution leaves of a text whose first `?` follows `a`:
      a prefix of `a`, a `?`-free middle, and the rest `b`. */
  lemma SubstituteParts(a: string, b: string, v: string) returns (kept: nat, mid: string)
    requires '?' !in a && '?' !in v
    ensures kept <= |a| && '?' !in mid
    ensures Substitute(a + "?" + b, v) == a[..kept] + mid + b
  {
    SubstituteAt(a, b, v);
    if v == NullSentinel && EndsWith(a, "!=") {
      kept, mid := |a| - 2, " is NOT NULL ";
      assert '?' !in mid;
    } else if v == NullSentinel && EndsWith(a, "=") {
      kept, mid := |a| - 1, " is NULL ";
      assert '?' !in mid;
    } else {
      kept, mid := |a|, v;
      assert a[..kept] == a;
    }
  }

  /** Each binding whose text has no `?` consumes exactly one placeholder,
      whichever of the four cases applies. */
  lemma SubstituteConsumesOne(t: string, v: string)
    requires '?' in t && '?' !in v
    ensures Count(Substitute(t, v), '?') == Count(t, '?') - 1
  {
    var a, b := FirstPlaceholder(t);
    var kept, mid := SubstituteParts(a, b, v);
    CountConcat(a, "?", '?');
    CountConcat(a + "?", b, '?');
    CountConcat(a[..kept], mid, '?');
    CountConcat(a[..kept] + mid, b, '?');
    assert '?' !in a[..kept];
  }

  /** Running the loop one position further is one more substitution. */
  lemma {:induction false} SubstituteAllSnoc(t: string, vals: seq<string>, v: string)
    ensures SubstituteAll(t, vals + [v]) == Substitute(SubstituteAll(t, vals), v)
    decreases vals
  {
    if vals != [] {
      assert (vals + [v])[1..] == vals[1..] + [v];
      SubstituteAllSnoc(Substitute(t, vals[0]), vals[1..], v);
    }
  }

  /** The template written as its `?`-free segments joined by `?`. */
  function JoinPlaceholders(segs: seq<string>): string
    requires |segs| >= 1
  {
    if |segs| == 1 then segs[0] else segs[0] + "?" + JoinPlaceholders(segs[1..])
  }

  /** Independent reference for the loop: the i-th value fills the gap
      after the i-th segment, left to right; values beyond the number of
      placeholders are dropped and placeholders beyond the values stay. */
  function Fill(segs: seq<string>, vals: seq<string>): string
    requires |segs| >= 1
  {
    if vals == [] || |segs| == 1 then JoinPlaceholders(segs)
    else segs[0] + vals[0] + Fill(segs[1..], vals[1..])
  }

  predicate PlainValues(vals: seq<string>) {
    forall i :: 0 <= i < |vals| ==> '?' !in vals[i] && vals[i] != NullSentinel
  }

  predicate PlainSegments(segs: seq<string>) {
    forall i :: 0 <= i < |segs| ==> '?' !in segs[i]
  }

  /** The first step of the loop, for a value other than the sentinel. */
  lemma SubstituteAllStep(a: string, b: string, vals: seq<string>)
    requires '?' !in a && vals != [] && vals[0] != NullSentinel
    ensures SubstituteAll(a + "?" + b, vals) == SubstituteAll(a + vals[0] + b, vals[1..])
  {
    SubstitutePlain(a, b, vals[0]);
  }

  /** A value other than the sentinel simply replaces the first `?`. */
  lemma SubstitutePlain(a: string, b: string, v: string)
    requires '?' !in a && v != NullSentinel
    ensures Substitute(a + "?" + b, v) == a + v + b
  {
    PlaceholderAt(a, b, v);
  }

  lemma PlainTails(segs: seq<string>, vals: seq<string>)
    requires |segs| >= 1 && |vals| >= 1 && PlainSegments(segs) && PlainValues(vals)
    ensures PlainSegments(segs[1..]) && PlainValues(vals[1..])
  {
    forall i | 0 <= i < |segs| - 1 ensures '?' !in segs[1..][i] {
      assert segs[1..][i] == segs[i + 1];
    }
    forall i | 0 <= i < |vals| - 1 ensures '?' !in vals[1..][i] && vals[1..][i] != NullSentinel {
      assert vals[1..][i] == vals[i + 1];
    }
  }

  /** Placeholders are resolved strictly left to right: for values that are
      neither the NULL sentinel nor contain `?`, the loop agrees with Fill. */
  lemma {:induction false} SubstituteAllFills(prefix: string, segs: seq<string>, vals: seq<string>)
    requires |segs| >= 1 && PlainSegments(segs) && PlainValues(vals) && '?' !in prefix
    ensures SubstituteAll(prefix + JoinPlaceholders(segs), vals) == prefix + Fill(segs, vals)
    decreases vals
  {
    if vals == [] {
    } else if |segs| == 1 {
      SubstituteAllWithoutPlaceholder(prefix + segs[0], vals);
    } else {
      assert '?' !in segs[0] && '?' !in vals[0] && vals[0] != NullSentinel;
      PlainTails(segs, vals);
      SubstituteAllFills(prefix + segs[0] + vals[0], segs[1..], vals[1..]);
      FillsCons(prefix, segs, vals);
    }
  }

  /** The inductive step of SubstituteAllFills: the first gap is filled,
      and the rest of the loop fills the rest. */
  lemma FillsCons(prefix: string, segs: seq<string>, vals: seq<string>)
    requires |segs| >= 2 && vals != [] && '?' !in prefix + segs[0] && vals[0] != NullSentinel
    requires SubstituteAll(prefix + segs[0] + vals[0] + JoinPlaceholders(segs[1..]), vals[1..]) ==
      prefix + segs[0] + vals[0] + Fill(segs[1..], vals[1..])
    ensures SubstituteAll(prefix + JoinPlaceholders(segs), vals) == prefix + Fill(segs, vals)
  {
    var head, rest := prefix + segs[0], JoinPlaceholders(segs[1..]);
    calc {
      SubstituteAll(prefix + JoinPlaceholders(segs), vals);
      { JoinCons(prefix, segs); }
      SubstituteAll(head + "?" + rest, vals);
      { SubstituteAllStep(head, rest, vals); }
      SubstituteAll(head + vals[0] + rest, vals[1..]);
      head + vals[0] + Fill(segs[1..], vals[1..]);
      { FillCons(prefix, segs, vals); }
      prefix + Fill(segs, vals);
    }
  }

  lemma JoinCons(prefix: string, segs: seq<string>)
    requires |segs| >= 2
    ensures prefix + JoinPlaceholders(segs) == (prefix + segs[0]) + "?" + JoinPlaceholders(segs[1..])
  {
  }

  lemma FillCons(prefix: string, segs: seq<string>, vals: seq<string>)
    requires |segs| >= 2 && vals != []
    ensures prefix + segs[0] + vals[0] + Fill(segs[1..], vals[1..]) == prefix + Fill(segs, vals)
  {
  }

  lemma TranslationFills(segs: seq<string>, vals: seq<string>)
    requires |segs| >= 1 && PlainSegments(segs) && PlainValues(vals)
    ensures SubstituteAll(JoinPlaceholders(segs), vals) == Fill(segs, vals)
  {
    SubstituteAllFills("", segs, vals);
    assert "" + JoinPlaceholders(segs) == JoinPlaceholders(segs);
  }

  // The GROUP BY workaround.

  predicate AllSpace(s: string) { forall i :: 0 <= i < |s| ==> IsSpace(s[i]) }
  predicate AllLowerAlnum(s: string) { forall i :: 0 <= i < |s| ==> IsLowerAlnum(s[i]) }
  predicate NoLineTerminator(s: string) { forall i :: 0 <= i < |s| ==> !IsLineTerminator(s[i]) }

  /** `s.matches("\\s+[a-z0-9]+\\.[a-z0-9]+\\..*")`. The character classes
      are disjoint, so a left-to-right scan decides it. */
  predicate MatchesQualifiedTail(s: string) {
    var i := SpanSpace(s, 0);
    var j := SpanLowerAlnum(s, i);
    0 < i < j < |s| && s[j] == '.' &&
    var k := SpanLowerAlnum(s, j + 1);
    j + 1 < k < |s| && s[k] == '.' && NoLineTerminator(s[k + 1..])
  }

  /** Every accepted tail has the regular expression's shape. */
  lemma QualifiedShape(s: string) returns (space: string, first: string, second: string, rest: string)
    requires MatchesQualifiedTail(s)
    ensures s == space + first + "." + second + "." + rest
    ensures |space| > 0 && AllSpace(space)
    ensures |first| > 0 && AllLowerAlnum(first)
    ensures |second| > 0 && AllLowerAlnum(second)
    ensures NoLineTerminator(rest)
  {
    var i := SpanSpace(s, 0);
    var j := SpanLowerAlnum(s, i);
    var k := SpanLowerAlnum(s, j + 1);
    space, first, second, rest := s[..i], s[i..j], s[j + 1..k], s[k + 1..];
    forall m | 0 <= m < |space| ensures IsSpace(space[m]) {
      assert space[m] == s[m];
    }
    forall m | 0 <= m < |first| ensures IsLowerAlnum(first[m]) {
      assert first[m] == s[i + m];
    }
    forall m | 0 <= m < |second| ensures IsLowerAlnum(second[m]) {
      assert second[m] == s[j + 1 + m];
    }
    assert s[..k] == space + first + "." + second;
    assert s == s[..k] + "." + rest;
  }

  lemma {:induction false} SpanSpaceOver(s: string, i: nat, j: nat)
    requires i <= j <= |s|
    requires forall m :: i <= m < j ==> IsSpace(s[m])
    requires j < |s| ==> !IsSpace(s[j])
    ensures SpanSpace(s, i) == j
    decreases j - i
  {
    if i < j { SpanSpaceOver(s, i + 1, j); }
  }

  lemma {:induction false} SpanLowerAlnumOver(s: string, i: nat, j: nat)
    requires i <= j <= |s|
    requires forall m :: i <= m < j ==> IsLowerAlnum(s[m])
    requires j < |s| ==> !IsLowerAlnum(s[j])
    ensures SpanLowerAlnum(s, i) == j
    decreases j - i
  {
    if i < j { SpanLowerAlnumOver(s, i + 1, j); }
  }

  /** Every text of the regular expression's shape is accepted. */
  lemma ShapeIsQualified(space: string, first: string, second: string, rest: string)
    requires |space| > 0 && AllSpace(space)
    requires |first| > 0 && AllLowerAlnum(first)
    requires |second| > 0 && AllLowerAlnum(second)
    requires NoLineTerminator(rest)
    ensures MatchesQualifiedTail(space + first + "." + second + "." + rest)
  {
    var s := space + first + "." + second + "." + rest;
    var i, j, k := |space|, |space| + |first|, |space| + |first| + 1 + |second|;
    forall m | 0 <= m < i ensures IsSpace(s[m]) {
      assert s[m] == space[m];
    }
    forall m | i <= m < j ensures IsLowerAlnum(s[m]) {
      assert s[m] == first[m - i];
    }
    forall m | j + 1 <= m < k ensures IsLowerAlnum(s[m]) {
      assert s[m] == second[m - j - 1];
    }
    assert s[j] == '.' && s[k] == '.' && s[k + 1..] == rest;
    SpanSpaceOver(s, 0, i);
    SpanLowerAlnumOver(s, i, j);
    SpanLowerAlnumOver(s, j + 1, k);
  }

  /** Lines 51-54 of executeQuery(): split at the first `GROUP BY`; with no
      `GROUP BY` there is no second part and the array access throws;
      otherwise the text before it is kept when the tail matches. */
  function StripGroupBy(t: string): (r: Result<string>)
    ensures r.Failure? <==> NoneBefore(t, GroupBy, |t| + 1)
    ensures r.Failure? ==> r.error == IndexOutOfBounds
    ensures r.Success? ==> r.value == t || (StartsWith(t, r.value + GroupBy) && NoneBefore(r.value, GroupBy, |r.value| + 1))
  {
    var parts := SplitFirst(t, GroupBy);
    if |parts| < 2 then Failure(IndexOutOfBounds)
    else
      assert t[..|parts[0]| + |GroupBy|] == parts[0] + GroupBy;
      assert forall j :: 0 <= j <= |parts[0]| && OccursAt(parts[0], GroupBy, j) ==> OccursAt(t, GroupBy, j);
      if MatchesQualifiedTail(parts[1]) then Success(parts[0]) else Success(t)
  }

  /** Which of the two outcomes a `GROUP BY` clause gets, for a text whose
      first `GROUP BY` follows `a`. */
  lemma StripGroupByAt(a: string, b: string)
    requires NoneBefore(a + GroupBy + b, GroupBy, |a|)
    ensures StripGroupBy(a + GroupBy + b) ==
      if MatchesQualifiedTail(b) then Success(a) else Success(a + GroupBy + b)
  {
    var t := a + GroupBy + b;
    assert OccursAt(t, GroupBy, |a|);
    assert t[..|a|] == a && t[|a| + |GroupBy|..] == b;
  }

  /** A bound position is missing when one of 1..size has no entry; the
      loop then reads null and throws. */
  predicate Gapless(params: map<int, string>) {
    BoundUpTo(params, |params|)
  }

  /** Positions 1..n all carry a binding. */
  predicate BoundUpTo(params: map<int, string>, n: nat) {
    forall j :: 1 <= j <= n ==> j in params
  }

  lemma BoundUpToStep(params: map<int, string>, n: nat)
    requires BoundUpTo(params, n) && n + 1 in params
    ensures BoundUpTo(params, n + 1)
  {
  }

  /** The values bound at positions 1..n, in order. */
  function Values(params: map<int, string>, n: nat): (vals: seq<string>)
    requires BoundUpTo(params, n)
    ensures |vals| == n
    ensures forall j :: 0 <= j < n ==> vals[j] == params[j + 1]
  {
    if n == 0 then [] else Values(params, n - 1) + [params[n]]
  }

  /** The text the bindings produce holds no `GROUP BY`. */
  predicate GroupByMissing(sql: string, params: map<int, string>)
    requires Gapless(params)
  {
    var text := SubstituteAll(sql, Values(params, |params|));
    NoneBefore(text, GroupBy, |text| + 1)
  }

  /** The whole translation of executeQuery(): loop, then GROUP BY handling. */
  function Translate(sql: string, params: map<int, string>): (r: Result<string>)
    ensures r == Failure(NullPointer) <==> !Gapless(params)
    ensures r == Failure(IndexOutOfBounds) <==> Gapless(params) && GroupByMissing(sql, params)
  {
    if !Gapless(params) then Failure(NullPointer)
    else StripGroupBy(SubstituteAll(sql, Values(params, |params|)))
  }

  /** A binding at position 2 alone leaves position 1 empty: execution fails. */
  lemma GapFails(sql: string, v: string)
    ensures Translate(sql, map[2 := v]) == Failure(NullPointer)
  {
    assert |map[2 := v]| == 1;
    assert 1 !in map[2 := v];
  }

  /** With only position 1 bound, the translation is that one substitution
      followed by the GROUP BY handling: earlier bindings cleared away play
      no part. */
  lemma TranslateSingle(sql: string, v: string)
    ensures Translate(sql, map[1 := v]) == StripGroupBy(Substitute(sql, v))
  {
    var params := map[1 := v];
    assert params.Keys == {1};
    assert |params| == 1;
    assert Gapless(params);
    var vals := Values(params, 1);
    assert vals == [v];
    assert vals[1..] == [];
    assert SubstituteAll(sql, vals) == Substitute(sql, v);
  }

  /** A `GROUP BY` over a two-part name such as ` t.col` is kept: the
      pattern demands two dots. */
  lemma TwoPartNameKept(space: string, first: string, second: string)
    requires |space| > 0 && AllSpace(space)
    requires |first| > 0 && AllLowerAlnum(first)
    requires AllLowerAlnum(second)
    ensures !MatchesQualifiedTail(space + first + "." + second)
  {
    var s := space + first + "." + second;
    var i, j := |space|, |space| + |first|;
    assert s[..i] == space && s[i..j] == first && s[j] == '.' && s[j + 1..] == second;
    SpanSpaceOver(s, 0, i);
    SpanLowerAlnumOver(s, i, j);
    SpanLowerAlnumOver(s, j + 1, |s|);
  }

  /** `setString(1, null)` on `a=?b` turns the comparison into an
      `is NULL` test. */
  lemma IsNullTranslation(a: string, b: string)
    requires '?' !in a && !EndsWith(a, "!")
    ensures Translate(a + "=?" + b, map[1 := NullSentinel]) == StripGroupBy(a + " is NULL " + b)
  {
    TranslateSingle(a + "=?" + b, NullSentinel);
    IsNullSubstitution(a, b);
  }

  lemma IsNullSubstitution(a: string, b: string)
    requires '?' !in a && !EndsWith(a, "!")
    ensures Substitute(a + "=?" + b, NullSentinel) == a + " is NULL " + b
  {
    var a' := a + "=";
    assert a' + "?" + b == a + "=?" + b;
    assert |a| > 0 ==> a'[|a'| - 2] == a[|a| - 1];
    assert !EndsWith(a', "!=");
    assert a'[..|a'| - 1] == a;
    SubstituteAt(a', b, NullSentinel);
  }

  /** `setNull(1, type)` on `a=?b` leaves the comparison `=null`, which
      matches nothing in SQL. */
  lemma SetNullTranslation(a: string, b: string)
    requires '?' !in a
    ensures Translate(a + "=?" + b, map[1 := NullText]) == StripGroupBy(a + "=null" + b)
  {
    var a' := a + "=";
    assert a' + "?" + b == a + "=?" + b;
    assert a' + NullText + b == a + "=null" + b;
    TranslateSingle(a + "=?" + b, NullText);
    SetNullNotRewritten(a', b);
  }
}
