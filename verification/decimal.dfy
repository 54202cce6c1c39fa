/**
  Decimal text and integers: `fmt.Sprintf("%d", n)` as `Itoa`, and
  `strconv.Atoi` as `ParseDecimal` (which reports failure) plus `Atoi`, the
  way the cron expander uses it: every error is discarded, so a string that
  does not parse reads as 0.
 */
module Decimal {

  datatype Option<+T> = None | Some(value: T)

  predicate IsDigit(c: char) {
    '0' <= c <= '9'
  }

  predicate AllDigits(s: string) {
    forall i :: 0 <= i < |s| ==> IsDigit(s[i])
  }

  function DigitChar(d: nat): (c: char)
    requires d < 10
    ensures IsDigit(c)
  {
    ('0' as int + d) as char
  }

  function DigitValue(c: char): (d: nat)
    requires IsDigit(c)
    ensures d < 10 && DigitChar(d) == c
  {
    c as int - '0' as int
  }

  /** The decimal digits of `n`, most significant first, without leading zeros. */
  function Digits(n: nat): (s: string)
    ensures |s| >= 1 && AllDigits(s)
    ensures |s| > 1 ==> s[0] != '0'
  {
    if n < 10 then [DigitChar(n)] else Digits(n / 10) + [DigitChar(n % 10)]
  }

  /** `fmt.Sprintf("%d", n)`: an optional minus sign and the digits of |n|. */
  function Itoa(n: int): (s: string)
    ensures |s| >= 1 && ' ' !in s && ',' !in s
  {
    if n < 0 then "-" + Digits(-n) else Digits(n)
  }

  /** The value of a string of decimal digits (leading zeros allowed). */
  function DigitsValue(s: string): nat
    requires AllDigits(s)
  {
    if s == [] then 0 else DigitsValue(s[..|s| - 1]) * 10 + DigitValue(s[|s| - 1])
  }

  /** The base-10 syntax `strconv.Atoi` accepts: an optional `+` or `-` sign
      followed by one or more ASCII digits; anything else is a syntax error. */
  function ParseDecimal(s: string): (r: Option<int>)
    ensures r.Some? <==> && |s| >= 1 && IsDigit(s[|s| - 1]) && AllDigits(s[1..])
                         && (IsDigit(s[0]) || s[0] == '+' || s[0] == '-')
    ensures r.Some? && s[0] == '-' ==> r.value <= 0
    ensures r.Some? && s[0] != '-' ==> r.value >= 0
  {
    if |s| >= 1 && (s[0] == '+' || s[0] == '-') then
      var body := s[1..];
      if body != [] && AllDigits(body) then
        var magnitude: int := DigitsValue(body);
        Some(if s[0] == '-' then -magnitude else magnitude)
      else None
    else if s != [] && AllDigits(s) then Some(DigitsValue(s))
    else None
  }

  /** `strconv.Atoi` with its error discarded: the parsed value, or 0. */
  function Atoi(s: string): (n: int)
    ensures ParseDecimal(s).Some? ==> n == ParseDecimal(s).value
    ensures ParseDecimal(s).None? ==> n == 0
  {
    match ParseDecimal(s)
    case Some(n) => n
    case None => 0
  }

  lemma {:induction false} DigitsValueOfDigits(n: nat)
    ensures DigitsValue(Digits(n)) == n
  {
    if n >= 10 {
      DigitsValueOfDigits(n / 10);
      var s := Digits(n);
      assert s[..|s| - 1] == Digits(n / 10);
    }
  }

  /** Parsing the rendering of any integer gives the integer back. */
  lemma ParseItoa(n: int)
    ensures ParseDecimal(Itoa(n)) == Some(n)
    ensures Atoi(Itoa(n)) == n
  {
    var s := Itoa(n);
    if n < 0 {
      DigitsValueOfDigits(-n);
      assert s[0] == '-' && s[1..] == Digits(-n);
    } else {
      DigitsValueOfDigits(n);
      assert IsDigit(s[0]);
    }
  }

  /** A string with a character that is neither a digit nor a leading sign
      does not parse, so `Atoi` reads it as 0. */
  lemma AtoiOfNonDigit(s: string, i: int)
    requires 0 <= i < |s| && !IsDigit(s[i])
    requires i == 0 ==> s[0] != '+' && s[0] != '-'
    ensures ParseDecimal(s) == None && Atoi(s) == 0
  {
    if |s| >= 1 && (s[0] == '+' || s[0] == '-') {
      assert s[1..][i - 1] == s[i];
    }
  }

  /** The empty string and a lone sign do not parse either. */
  lemma AtoiOfNoDigits(s: string)
    requires s == "" || s == "+" || s == "-"
    ensures ParseDecimal(s) == None && Atoi(s) == 0
  {
  }
}
