/** Decimal numbers as strconv reads and writes them. */
module Decimal {
  import opened Wrappers
  import opened Arithmetic

  predicate IsDigit(c: char) {
    '0' <= c <= '9'
  }

  predicate AllDigits(s: string) {
    forall i :: 0 <= i < |s| ==> IsDigit(s[i])
  }

  function DigitChar(d: int): char
    requires 0 <= d < 10
  {
    '0' + d as char
  }

  function Value(s: string): nat
    requires AllDigits(s)
  {
    if s == "" then 0 else 10 * Value(s[..|s| - 1]) + (s[|s| - 1] - '0') as int
  }

  function Digits(n: nat): string {
    if n < 10 then [DigitChar(n)] else Digits(n / 10) + [DigitChar(n % 10)]
  }

  function FormatInt(n: int): string {
    if n < 0 then "-" + Digits(-n) else Digits(n)
  }

  predicate IsSigned(s: string) {
    s != "" && (s[0] == '+' || s[0] == '-')
  }

  function Magnitude(digits: string, negative: bool): Option<int> {
    if digits == "" || !AllDigits(digits) then None
    else
      var n: int := if negative then -(Value(digits) as int) else Value(digits);
      if InInt64(n) then Some(n) else None
  }

  /** An optional sign and at least one digit, within int64. */
  function ParseInt64(s: string): (r: Option<int>)
    ensures r.Some? ==> InInt64(r.value)
  {
    if IsSigned(s) then Magnitude(s[1..], s[0] == '-') else Magnitude(s, false)
  }

  lemma {:induction false} DigitsAreExact(n: nat)
    ensures Digits(n) != "" && AllDigits(Digits(n)) && Value(Digits(n)) == n
  {
    if n < 10 {
      assert Digits(n)[..0] == "";
    } else {
      DigitsAreExact(n / 10);
      assert Digits(n)[..|Digits(n)| - 1] == Digits(n / 10);
    }
  }

  predicate IsSign(s: string) {
    s == "" || s == "+" || s == "-"
  }

  lemma ReadSigned(sign: string, digits: string)
    requires IsSign(sign) && digits != "" && AllDigits(digits)
    ensures ParseInt64(sign + digits) == Magnitude(digits, sign == "-")
  {
    assert IsDigit(digits[0]);
    if sign == "" {
      assert sign + digits == digits;
    } else {
      assert (sign + digits)[1..] == digits;
    }
  }

  /** Every int64 survives being written and read back. */
  lemma ParseFormatted(n: int)
    requires InInt64(n)
    ensures ParseInt64(FormatInt(n)) == Some(n)
  {
    if n < 0 {
      DigitsAreExact(-n);
      ReadSigned("-", Digits(-n));
    } else {
      DigitsAreExact(n);
      ReadSigned("", Digits(n));
      assert "" + Digits(n) == Digits(n);
    }
  }

  /** What FormatInt writes contains no separator and no space. */
  lemma FormattedChars(n: int, c: char)
    requires c in FormatInt(n)
    ensures c == '-' || IsDigit(c)
  {
    DigitsAreExact(if n < 0 then -n else n);
  }

  // ---------- What is written and what is accepted ----------

  lemma ValueIsPositional(s: string, last: char)
    requires AllDigits(s) && IsDigit(last)
    ensures AllDigits(s + [last]) && Value(s + [last]) == 10 * Value(s) + (last as int - 48)
    ensures Value("") == 0
  {
    assert (s + [last])[..|s|] == s;
  }

  /** The numeral of `n`: a minus sign if it is negative, digits of its value, and no leading zero. */
  ghost predicate IsNumeral(s: string, n: int) {
    var digits := if n < 0 && s != "" then s[1..] else s;
    && (n < 0 ==> s != "" && s[0] == '-')
    && digits != "" && AllDigits(digits) && Value(digits) == (if n < 0 then -n else n)
    && (|digits| > 1 ==> digits[0] != '0')
  }

  lemma {:induction false} NoLeadingZero(n: nat)
    ensures Digits(n) != "" && (n > 0 ==> Digits(n)[0] != '0')
    ensures |Digits(n)| > 1 ==> n >= 10
  {
    if n >= 10 {
      NoLeadingZero(n / 10);
    }
  }

  lemma {:induction false} LeadingDigitCounts(s: string)
    requires s != "" && AllDigits(s) && s[0] != '0'
    ensures Value(s) > 0
  {
    if |s| > 1 {
      LeadingDigitCounts(s[..|s| - 1]);
    } else {
      assert s[..0] == "";
    }
  }

  lemma {:induction false} DigitsAreTheOnly(s: string, n: nat)
    requires s != "" && AllDigits(s) && Value(s) == n && (|s| > 1 ==> s[0] != '0')
    ensures s == Digits(n)
    decreases |s|
  {
    var front, last := s[..|s| - 1], s[|s| - 1];
    if front == "" {
      assert Value(s) == (last - '0') as int;
      assert s == [last];
    } else {
      LeadingDigitCounts(front);
      assert n / 10 == Value(front) && n % 10 == (last - '0') as int;
      DigitsAreTheOnly(front, n / 10);
      assert s == front + [last];
    }
  }

  /** An integer is written as its numeral, and that is its only one. */
  lemma FormattedIffNumeral(s: string, n: int)
    ensures IsNumeral(s, n) <==> s == FormatInt(n)
  {
    DigitsAreExact(if n < 0 then -n else n);
    NoLeadingZero(if n < 0 then -n else n);
    if IsNumeral(s, n) {
      if n < 0 {
        DigitsAreTheOnly(s[1..], -n);
        assert s == [s[0]] + s[1..];
      } else {
        DigitsAreTheOnly(s, n);
      }
    } else if n < 0 {
      assert FormatInt(n)[1..] == Digits(-n);
    }
  }

  /** A text is read as `n` exactly when it is an optional sign and digits whose value, with that sign, is `n`. */
  lemma ParsedIffSigned(s: string, n: int)
    ensures ParseInt64(s) == Some(n) <==>
              && -0x8000_0000_0000_0000 <= n <= 0x7FFF_FFFF_FFFF_FFFF
              && exists sign, digits ::
                   && (sign == "" || sign == "+" || sign == "-") && s == sign + digits
                   && digits != "" && AllDigits(digits)
                   && n == if sign == "-" then -(Value(digits) as int) else Value(digits)
  {
    if ParseInt64(s) == Some(n) {
      var sign := if IsSigned(s) then [s[0]] else "";
      var digits := if IsSigned(s) then s[1..] else s;
      assert IsSign(sign) && s == sign + digits;
    }
    forall sign, digits | IsSign(sign) && s == sign + digits && digits != "" && AllDigits(digits)
      ensures ParseInt64(s) == Magnitude(digits, sign == "-")
    {
      ReadSigned(sign, digits);
    }
  }
}
