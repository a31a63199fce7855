/** The literal texts the prepared statement's typed setters store for a
    bind value (JdbcPreparedStatement.setNull ... setObject): the decimal
    text of integers, `true`/`false`, quoted strings, the bracketed list of
    a byte array, and the quote-unless-numeric rule of `setObject`. */
module Literals {
  import opened Common
  import opened Text

  /** The stored text that `executeQuery()` treats as a bound SQL NULL. It is
      what `setString` stores for the string "null" or for a null string, and
      what `setObject` stores for a null object. */
  const NullSentinel: string := "'null'"

  /** What `setNull` stores: unquoted, so it is NOT the sentinel. */
  const NullText: string := "null"

  lemma NullTextIsNotSentinel()
    ensures NullText != NullSentinel
  {
    assert |NullText| != |NullSentinel|;
  }

  /** `String.valueOf(boolean)` */
  function BooleanText(b: bool): (s: string)
    ensures s == "true" || s == "false"
    ensures s == "true" <==> b
  {
    if b then "true" else "false"
  }

  predicate AllDigits(s: string) {
    forall i :: 0 <= i < |s| ==> IsDigit(s[i])
  }

  function DigitChar(d: nat): (c: char)
    requires d < 10
    ensures IsDigit(c)
  {
    ('0' as int + d) as char
  }

  function DigitValue(c: char): (d: nat)
    requires IsDigit(c)
    ensures d < 10 && DigitChar(d) == c
  {
    c as int - '0' as int
  }

  /** Decimal digits of a natural number, without leading zeros. */
  function NatText(n: nat): (s: string)
    ensures |s| > 0 && AllDigits(s)
    ensures |s| > 1 ==> s[0] != '0'
  {
    if n < 10 then [DigitChar(n)] else NatText(n / 10) + [DigitChar(n % 10)]
  }

  /** `String.valueOf` of a byte, short, int or long: a minus sign for
      negative values, then the decimal digits. */
  function DecimalText(n: int): (s: string)
  {
    if n < 0 then "-" + NatText(-n) else NatText(n)
  }

  function ParseNat(s: string): nat
    requires AllDigits(s)
  {
    if s == [] then 0 else ParseNat(s[..|s| - 1]) * 10 + DigitValue(s[|s| - 1])
  }

  /** Reads back the text `DecimalText` produces; `None` for anything else. */
  function ParseDecimal(s: string): Option<int>
  {
    if |s| > 1 && s[0] == '-' && AllDigits(s[1..]) then Some(-(ParseNat(s[1..]) as int))
    else if |s| > 0 && AllDigits(s) then Some(ParseNat(s))
    else None
  }

  lemma {:induction false} ParseNatText(n: nat)
    ensures ParseNat(NatText(n)) == n
  {
    if n >= 10 {
      var s := NatText(n);
      assert s[..|s| - 1] == NatText(n / 10);
      ParseNatText(n / 10);
    }
  }

  /** The integer setters' text reads back as the value that was bound. */
  lemma DecimalRoundTrip(n: int)
    ensures ParseDecimal(DecimalText(n)) == Some(n)
  {
    var s := DecimalText(n);
    if n < 0 {
      assert s[1..] == NatText(-n);
      ParseNatText(-n);
    } else {
      ParseNatText(n);
    }
  }

  /** Distinct integers are stored as distinct texts. */
  lemma DecimalTextInjective(m: int, n: int)
    requires DecimalText(m) == DecimalText(n)
    ensures m == n
  {
    DecimalRoundTrip(m);
    DecimalRoundTrip(n);
  }

  /** `String.format("'%s'", x)` as `setString` uses it; a null string
      formats as `null`. */
  function StringLiteral(x: Option<string>): (s: string)
    ensures |s| >= 2 && s[0] == '\'' && s[|s| - 1] == '\''
    ensures x.Some? ==> s[1..|s| - 1] == x.value
    ensures x.None? ==> s == NullSentinel
  {
    "'" + (match x case Some(v) => v case None => "null") + "'"
  }

  /** `setString` stores the sentinel exactly for the string "null" and for
      a null string. */
  lemma StringLiteralSentinel(x: Option<string>)
    ensures StringLiteral(x) == NullSentinel <==> (x.None? || x.value == "null")
  {
    if x.Some? && StringLiteral(x) == NullSentinel {
      assert x.value == NullSentinel[1..|NullSentinel| - 1];
    }
  }

  /** The comma-separated elements of `Arrays.toString(byte[])`. */
  function ElementsText(bs: seq<Int8>): string
  {
    if |bs| == 0 then ""
    else if |bs| == 1 then DecimalText(bs[0] as int)
    else DecimalText(bs[0] as int) + ", " + ElementsText(bs[1..])
  }

  /** `Arrays.toString(byte[])`: `null` for a null array, else the
      elements in brackets, separated by ", ". */
  function BytesText(x: Option<seq<Int8>>): (s: string)
    ensures x.Some? ==> |s| >= 2 && s[0] == '[' && s[|s| - 1] == ']'
    ensures x.None? ==> s == NullText
  {
    match x
    case None => NullText
    case Some(bs) => "[" + ElementsText(bs) + "]"
  }

  lemma DecimalTextChars(n: int)
    ensures forall c :: c in DecimalText(n) ==> c == '-' || IsDigit(c)
  {
    var s := DecimalText(n);
    if n < 0 {
      forall c | c in s ensures c == '-' || IsDigit(c) {
        var i :| 0 <= i < |s| && s[i] == c;
        if i > 0 { assert s[i] == NatText(-n)[i - 1]; }
      }
    }
  }

  /** Byte-array text holds one comma per element boundary, so the
      elements can be told apart. */
  lemma {:induction false} ElementsTextCommas(bs: seq<Int8>)
    ensures Count(ElementsText(bs), ',') == if |bs| == 0 then 0 else |bs| - 1
  {
    if |bs| >= 1 {
      DecimalTextChars(bs[0] as int);
      assert Count(DecimalText(bs[0] as int), ',') == 0;
      if |bs| > 1 {
        ElementsTextCommas(bs[1..]);
        CountConcat(DecimalText(bs[0] as int), ", ", ',');
        CountConcat(DecimalText(bs[0] as int) + ", ", ElementsText(bs[1..]), ',');
      }
    }
  }

  /** `s.matches("[0-9]+\\.?[0-9]*")`: digits, an optional dot, digits. */
  predicate MatchesNumber(s: string) {
    var i := SpanDigits(s, 0);
    0 < i && (i == |s| || (s[i] == '.' && SpanDigits(s, i + 1) == |s|))
  }

  /** Every text the pattern accepts has the regular expression's shape. */
  lemma NumberShape(s: string) returns (whole: string, dot: string, fraction: string)
    requires MatchesNumber(s)
    ensures s == whole + dot + fraction
    ensures |whole| > 0 && AllDigits(whole) && (dot == "" || dot == ".") && AllDigits(fraction)
  {
    var i := SpanDigits(s, 0);
    if i == |s| {
      whole, dot, fraction := s, "", "";
    } else {
      whole, dot, fraction := s[..i], ".", s[i + 1..];
      assert s == s[..i] + [s[i]] + s[i + 1..];
    }
  }

  /** Every text of the regular expression's shape is accepted. */
  lemma ShapeIsNumber(whole: string, dot: string, fraction: string)
    requires |whole| > 0 && AllDigits(whole) && (dot == "" || dot == ".") && AllDigits(fraction)
    ensures MatchesNumber(whole + dot + fraction)
  {
    var s := whole + dot + fraction;
    if dot == "" {
      SpanDigitsOver(s, 0, |s|);
    } else {
      SpanDigitsOver(s, 0, |whole|);
      SpanDigitsOver(s, |whole| + 1, |s|);
    }
  }

  /** SpanDigits runs to `j` when everything from `i` to `j` is a digit and
      `j` is the end or a non-digit. */
  lemma {:induction false} SpanDigitsOver(s: string, i: nat, j: nat)
    requires i <= j <= |s|
    requires forall m :: i <= m < j ==> IsDigit(s[m])
    requires j < |s| ==> !IsDigit(s[j])
    ensures SpanDigits(s, i) == j
    decreases j - i
  {
    if i < j {
      SpanDigitsOver(s, i + 1, j);
    }
  }

  /** `setObject(i, x)`: the text of `x` is stored bare when it looks like
      an unsigned decimal number, and in single quotes otherwise. */
  function ObjectLiteral(text: string): (s: string)
    ensures MatchesNumber(text) ==> s == text
    ensures !MatchesNumber(text) ==> s == "'" + text + "'"
  {
    if MatchesNumber(text) then text else "'" + text + "'"
  }

  /** `setObject(i, null)` stores the NULL sentinel (a null object's text is
      `null`), whereas `setNull` does not. */
  lemma ObjectLiteralOfNull()
    ensures ObjectLiteral(NullText) == NullSentinel
  {
    assert SpanDigits(NullText, 0) == 0;
  }

  /** An integer object is stored bare when non-negative and quoted when
      negative: the pattern has no sign. */
  lemma ObjectLiteralOfInteger(n: int)
    ensures ObjectLiteral(DecimalText(n)) ==
      if n >= 0 then DecimalText(n) else "'" + DecimalText(n) + "'"
  {
    var s := DecimalText(n);
    if n >= 0 {
      ShapeIsNumber(s, "", "");
      assert s + "" + "" == s;
    } else {
      assert s[0] == '-';
      assert SpanDigits(s, 0) == 0;
    }
  }

  /** Two of the decisive cases: a decimal fraction stays bare and a
      negative number is quoted. */
  lemma ObjectLiteralExamples()
    ensures ObjectLiteral("12.5") == "12.5"
    ensures ObjectLiteral("-3") == "'-3'"
    ensures ObjectLiteral("12.") == "12."
    ensures ObjectLiteral(".5") == "'.5'"
  {
    ShapeIsNumber("12", ".", "5");
    assert "12" + "." + "5" == "12.5";
    ShapeIsNumber("12", ".", "");
    assert "12" + "." + "" == "12.";
    assert SpanDigits("-3", 0) == 0;
    assert SpanDigits(".5", 0) == 0;
  }

  /** The texts of booleans, integers and byte arrays contain no `?`, so
      binding them never adds a placeholder to the template. */
  lemma {:induction false} RenderedWithoutPlaceholder(b: bool, n: int, bs: Option<seq<Int8>>)
    ensures '?' !in BooleanText(b)
    ensures '?' !in DecimalText(n)
    ensures '?' !in BytesText(bs)
  {
    DecimalTextChars(n);
    if bs.Some? {
      ElementsWithoutPlaceholder(bs.value);
    }
  }

  lemma {:induction false} ElementsWithoutPlaceholder(bs: seq<Int8>)
    ensures '?' !in ElementsText(bs)
  {
    if |bs| >= 1 {
      DecimalTextChars(bs[0] as int);
      if |bs| > 1 {
        ElementsWithoutPlaceholder(bs[1..]);
      }
    }
  }
}
