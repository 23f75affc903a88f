/**
 * What both dashboard servers do with a request's query string once
 * `urllib.parse.parse_qs` has split it: take the first value of a
 * parameter or its default, read a flag, and read a whole number the way
 * Python's `int(str)` does for plain decimal text.
 */
module HttpQuery {
  import opened Common

  /** `parse_qs` maps each parameter to the non-empty list of its values. */
  type Query = map<string, seq<string>>

  predicate WellFormed(q: Query)
  {
    forall k :: k in q ==> |q[k]| > 0
  }

  /** `query.get(key, [default])[0]` */
  function Param(q: Query, key: string, default: string): (v: string)
    requires WellFormed(q)
    ensures key !in q ==> v == default
    ensures key in q ==> v == q[key][0]
  {
    if key in q then q[key][0] else default
  }

  /** `value.lower() == 'true'` */
  predicate IsTrue(v: string)
  {
    Lower(v) == "true"
  }

  // ---------------------------------------------------------------------
  // Decimal text
  // ---------------------------------------------------------------------

  predicate IsDecimal(c: char)
  {
    '0' <= c <= '9'
  }

  predicate AllDecimal(s: string)
  {
    forall i :: 0 <= i < |s| ==> IsDecimal(s[i])
  }

  function DigitChar(d: nat): char
    requires d < 10
  {
    ('0' as int + d) as char
  }

  /** The value of a run of decimal digits. */
  function DigitsValue(s: string): nat
    requires AllDecimal(s)
  {
    if s == [] then 0
    else DigitsValue(s[..|s| - 1]) * 10 + (s[|s| - 1] as int - '0' as int)
  }

  /** `str(n)` for a natural number. */
  function NatText(n: nat): (t: string)
    ensures |t| >= 1 && AllDecimal(t)
  {
    if n < 10 then [DigitChar(n)] else NatText(n / 10) + [DigitChar(n % 10)]
  }

  /** `str(n)` for any whole number. */
  function IntText(n: int): string
  {
    if n < 0 then "-" + NatText(-n) else NatText(n)
  }

  /** The written digits read back as the number. */
  lemma {:induction false} NatTextValue(n: nat)
    ensures DigitsValue(NatText(n)) == n
  {
    if n >= 10 {
      NatTextValue(n / 10);
      var t := NatText(n);
      assert t[..|t| - 1] == NatText(n / 10);
    }
  }

  /** The digits of an integer literal as `int` accepts them: at least one
      digit, with single underscores allowed between two digits. */
  predicate DigitGroups(s: string)
  {
    s != [] && IsDecimal(s[0]) && IsDecimal(s[|s| - 1]) && forall i :: 0 <= i < |s| ==> GroupCharAt(s, i)
  }

  /** The character at `i` is a digit, or an underscore between two digits. */
  predicate GroupCharAt(s: string, i: int)
    requires 0 <= i < |s|
  {
    IsDecimal(s[i]) || (s[i] == '_' && 0 < i < |s| - 1 && IsDecimal(s[i - 1]) && IsDecimal(s[i + 1]))
  }

  lemma GroupsAreDigitsOrUnderscores(s: string)
    requires DigitGroups(s)
    ensures DigitsOrUnderscores(s)
  {
    forall i | 0 <= i < |s|
      ensures IsDecimal(s[i]) || s[i] == '_'
    {
      assert GroupCharAt(s, i);
    }
  }

  predicate DigitsOrUnderscores(s: string)
  {
    forall i :: 0 <= i < |s| ==> IsDecimal(s[i]) || s[i] == '_'
  }

  /** The text without its underscores. */
  function DropUnderscores(s: string): (r: string)
    ensures '_' !in r
    ensures DigitsOrUnderscores(s) ==> AllDecimal(r)
    ensures AllDecimal(s) ==> r == s
  {
    if s == [] then [] else (if s[0] == '_' then [] else [s[0]]) + DropUnderscores(s[1..])
  }

  /** Python's `int(s)` on text: surrounding whitespace, an optional sign
      and ASCII digits in groups separated by single underscores; `None`
      where `int` raises `ValueError`. */
  function ParseInt(s: string): (r: Option<int>)
    ensures r.Some? ==> Strip(s) != []
  {
    ParseLiteral(Strip(s))
  }

  /** `int` on text already stripped: an optional sign, then grouped digits. */
  function ParseLiteral(t: string): Option<int>
  {
    if t == [] then None
    else if t[0] == '-' || t[0] == '+' then
      var digits := t[1..];
      if DigitGroups(digits) then
        var v := GroupsValue(digits) as int;
        Some(if t[0] == '-' then -v else v)
      else None
    else if DigitGroups(t) then Some(GroupsValue(t))
    else None
  }

  /** The value of grouped digits, underscores ignored. */
  function GroupsValue(s: string): nat
    requires DigitGroups(s)
  {
    GroupsAreDigitsOrUnderscores(s);
    DigitsValue(DropUnderscores(s))
  }

  /** Reading back what `str` writes gives the number. */
  lemma ParseIntText(n: int)
    ensures ParseInt(IntText(n)) == Some(n)
  {
    if n < 0 {
      ParseNegativeText(-n);
    } else {
      ParseNatText(n);
    }
  }

  /** Plain digits are a literal `int` accepts, with their own value. */
  lemma DigitsAreGroups(t: string)
    requires t != [] && AllDecimal(t)
    ensures DigitGroups(t) && GroupsValue(t) == DigitsValue(t)
  {
    forall i | 0 <= i < |t|
      ensures GroupCharAt(t, i)
    {
    }
  }

  lemma {:induction false} ParseNatText(n: nat)
    ensures ParseInt(NatText(n)) == Some(n)
  {
    var t := NatText(n);
    NatTextUnspaced(t);
    NatTextValue(n);
    DigitsAreGroups(t);
    assert t[0] != '-' && t[0] != '+';
  }

  lemma {:induction false} ParseNegativeText(n: nat)
    requires n > 0
    ensures ParseInt("-" + NatText(n)) == Some(-(n as int))
  {
    NatTextValue(n);
    NegativeDigitsParse(NatText(n), n);
  }

  /** A minus sign before plain digits reads back as the negated value. */
  lemma NegativeDigitsParse(d: string, n: nat)
    requires d != [] && AllDecimal(d) && DigitsValue(d) == n
    ensures ParseInt("-" + d) == Some(-(n as int))
  {
    NatTextUnspaced(d);
    ParseNegativeLiteral(d);
  }

  /** Digits, with or without a leading minus, have no space to strip. */
  lemma NatTextUnspaced(d: string)
    requires d != [] && AllDecimal(d)
    ensures Strip(d) == d && Strip("-" + d) == "-" + d
  {
    assert IsDecimal(d[0]) && IsDecimal(d[|d| - 1]);
    StripOfUnspaced(d);
    var t := "-" + d;
    assert t[|t| - 1] == d[|d| - 1];
    StripOfUnspaced(t);
  }

  lemma ParseNegativeLiteral(d: string)
    requires d != [] && AllDecimal(d)
    ensures ParseLiteral("-" + d) == Some(-(DigitsValue(d) as int))
  {
    var t := "-" + d;
    assert t[1..] == d;
    DigitsAreGroups(d);
  }

  /** The default page size and limit read back as a number. */
  lemma DefaultLimitText()
    ensures ParseInt("50") == Some(50)
  {
    assert DigitChar(5) == '5' && DigitChar(0) == '0';
    assert NatText(5) == "5";
    assert NatText(50) == NatText(5) + "0";
    assert "5" + "0" == "50";
    assert IntText(50) == "50";
    ParseIntText(50);
  }

  /** The default page reads back as a number. */
  lemma DefaultPageText()
    ensures ParseInt("1") == Some(1)
  {
    assert DigitChar(1) == '1';
    assert NatText(1) == "1";
    ParseIntText(1);
  }

  /** Blank text is refused. */
  lemma ParseIntRejectsBlank(s: string)
    requires forall i :: 0 <= i < |s| ==> IsSpace(s[i])
    ensures ParseInt(s) == None
  {
    StripEmptyIffBlank(s);
  }

  /** Text whose stripped form holds anything but digits and underscores
      after an optional sign is refused. */
  lemma ParseIntRejectsNonDigit(s: string, i: int)
    requires var t := Strip(s); 0 < i < |t| && !IsDecimal(t[i]) && t[i] != '_'
    ensures ParseInt(s) == None
  {
    var t := Strip(s);
    if t[0] == '-' || t[0] == '+' {
      var d := t[1..];
      assert d[i - 1] == t[i];
      assert !GroupCharAt(d, i - 1);
    } else {
      assert !GroupCharAt(t, i);
    }
  }

  /** An underscore that does not stand between two digits (leading,
      trailing, doubled or next to the sign) makes the text refused. */
  lemma ParseIntRejectsStrayUnderscore(s: string, i: int)
    requires var t := Strip(s);
      0 <= i < |t| && t[i] == '_' && (i == 0 || i == |t| - 1 || !IsDecimal(t[i - 1]) || !IsDecimal(t[i + 1]))
    ensures ParseInt(s) == None
  {
    var t := Strip(s);
    if t[0] == '-' || t[0] == '+' {
      var d := t[1..];
      if i > 0 {
        assert d[i - 1] == t[i];
        assert i - 1 == 0 || i - 1 == |d| - 1 || !IsDecimal(d[i - 2]) || !IsDecimal(d[i]);
        assert !GroupCharAt(d, i - 1);
      }
    } else {
      assert !GroupCharAt(t, i);
    }
  }

  /** Underscores between digit groups are accepted and ignored. */
  lemma ParseIntGrouped()
    ensures ParseInt("1_000") == Some(1000)
  {
    var t := "1_000";
    StripOfUnspaced(t);
    GroupedValue();
    assert ParseLiteral(t) == Some(1000);
  }

  lemma GroupedValue()
    ensures DigitGroups("1_000") && GroupsValue("1_000") == 1000
  {
    var t := "1_000";
    assert GroupCharAt(t, 0) && GroupCharAt(t, 1) && GroupCharAt(t, 2) && GroupCharAt(t, 3) && GroupCharAt(t, 4);
    assert t[1..] == "_000" && t[1..][1..] == "000";
    assert DropUnderscores("000") == "000";
    assert DropUnderscores(t) == "1000";
    var d := "1000";
    assert d[..3] == "100" && d[..3][..2] == "10" && d[..3][..2][..1] == "1";
    assert DigitsValue("1") == 1;
    assert DigitsValue("10") == 10;
    assert DigitsValue("100") == 100;
    assert DigitsValue(d) == 1000;
  }
}
