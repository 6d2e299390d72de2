/** Decimal numerals and string splitting, as the generated node ids use them. */
module Text {
  const DIGITS := "0123456789"

  function Decimal(n: nat): (s: string)
    ensures |s| > 0 && forall c :: c in s ==> c in DIGITS
  {
    if n < 10 then [DIGITS[n]] else Decimal(n / 10) + [DIGITS[n % 10]]
  }

  function DigitValue(c: char): nat {
    if '0' <= c <= '9' then (c as int) - ('0' as int) else 0
  }

  function ParseDecimal(s: string): nat {
    if s == "" then 0 else 10 * ParseDecimal(s[..|s| - 1]) + DigitValue(s[|s| - 1])
  }

  lemma {:induction false} ParseInvertsDecimal(n: nat)
    ensures ParseDecimal(Decimal(n)) == n
  {
    var s := Decimal(n);
    assert forall d :: 0 <= d < 10 ==> DigitValue(DIGITS[d]) == d;
    if n < 10 {
      assert s[..0] == "";
      assert ParseDecimal("") == 0;
      assert ParseDecimal(s) == DigitValue(s[0]);
    } else {
      ParseInvertsDecimal(n / 10);
      assert s[..|s| - 1] == Decimal(n / 10);
    }
  }

  /** Numerals have no leading zero, and every such string of digits is the numeral of its value. */
  predicate IsNumeral(s: string) {
    s != "" && (forall c :: c in s ==> '0' <= c <= '9') && (|s| > 1 ==> s[0] != '0')
  }

  lemma {:induction false} DecimalIsNumeral(n: nat)
    ensures IsNumeral(Decimal(n)) && (Decimal(n) == "0" <==> n == 0)
  {
    if n >= 10 {
      DecimalIsNumeral(n / 10);
    }
  }

  lemma DigitOfValue(c: char)
    requires '0' <= c <= '9'
    ensures DigitValue(c) < 10 && DIGITS[DigitValue(c)] == c
  {
    var d := DigitValue(c);
    assert forall k :: 0 <= k < 10 ==> DIGITS[k] as int == '0' as int + k;
  }

  lemma {:induction false} NumeralIsDecimal(s: string)
    requires IsNumeral(s)
    ensures Decimal(ParseDecimal(s)) == s
  {
    hide IsNumeral, DigitValue, Decimal;
    LastIsDigit(s);
    var init, last := s[..|s| - 1], s[|s| - 1];
    DigitOfValue(last);
    if init == "" {
      OneDigit(DigitValue(last));
    } else {
      InitIsNumeral(init, last);
      NumeralIsDecimal(init);
      DecimalIsNumeral(ParseDecimal(init));
      DecimalOfDigits(ParseDecimal(init), DigitValue(last));
    }
  }

  lemma LastIsDigit(s: string)
    requires IsNumeral(s)
    ensures s != "" && '0' <= s[|s| - 1] <= '9' && s == s[..|s| - 1] + [s[|s| - 1]]
  {
    assert s[|s| - 1] in s;
  }

  lemma InitIsNumeral(init: string, last: char)
    requires IsNumeral(init + [last]) && init != ""
    ensures IsNumeral(init) && init != "0"
  {
    var s := init + [last];
    assert s[0] == init[0];
    forall c | c in init ensures '0' <= c <= '9' {
      assert c in s;
    }
  }

  lemma OneDigit(d: nat)
    requires d < 10
    ensures Decimal(d) == [DIGITS[d]]
  {
  }

  lemma DecimalOfDigits(n: nat, d: nat)
    requires 0 < n && d < 10
    ensures Decimal(10 * n + d) == Decimal(n) + [DIGITS[d]]
  {
  }

  /** The pieces of `s` between occurrences of `sep`. */
  function Split(s: string, sep: char): (parts: seq<string>)
    ensures |parts| > 0
  {
    if s == "" then [""]
    else
      var rest := Split(s[1..], sep);
      if s[0] == sep then [""] + rest else [[s[0]] + rest[0]] + rest[1..]
  }

  lemma {:induction false} SplitSingle(s: string, sep: char)
    requires sep !in s
    ensures Split(s, sep) == [s]
  {
    if s != "" {
      SplitSingle(s[1..], sep);
      assert [s[0]] + s[1..] == s;
    }
  }

  lemma {:induction false} SplitAt(a: string, b: string, sep: char)
    requires sep !in a
    ensures Split(a + [sep] + b, sep) == [a] + Split(b, sep)
  {
    var s := a + [sep] + b;
    if a == "" {
      assert s[1..] == b;
    } else {
      assert s[1..] == a[1..] + [sep] + b;
      SplitAt(a[1..], b, sep);
      assert [a[0]] + a[1..] == a;
    }
  }
}
