/**
 * Decimal rendering of integers, as `fmt.Sprintf("%d", n)` produces it for the
 * `--memory` and `--vcpus` arguments of virt-install, and the parser that reads
 * such a rendering back.
 */
module Decimal {
  import opened Wrappers

  predicate IsDigit(c: char) {
    '0' <= c <= '9'
  }

  predicate AllDigits(s: string) {
    forall i | 0 <= i < |s| :: IsDigit(s[i])
  }

  function DigitChar(d: nat): (c: char)
    requires d < 10
    ensures IsDigit(c) && c as int - '0' as int == d
  {
    ('0' as int + d) as char
  }

  function DigitValue(c: char): nat
    requires IsDigit(c)
  {
    c as int - '0' as int
  }

  /** The decimal digits of `n`, most significant first, without leading zeros. */
  function Natural(n: nat): string
    decreases n
  {
    if n < 10 then [DigitChar(n)] else Natural(n / 10) + [DigitChar(n % 10)]
  }

  /** `%d` for a Go int: a minus sign for a negative value, then its digits. */
  function Format(n: int): string {
    if n < 0 then "-" + Natural(-n) else Natural(n)
  }

  /** The value of a non-empty string of digits. */
  function ParseNatural(s: string): nat
    requires |s| > 0 && AllDigits(s)
    decreases |s|
  {
    if |s| == 1 then DigitValue(s[0])
    else 10 * ParseNatural(s[..|s| - 1]) + DigitValue(s[|s| - 1])
  }

  /** Reads an optional minus sign followed by at least one digit. */
  function Parse(s: string): Option<int> {
    if |s| > 1 && s[0] == '-' && AllDigits(s[1..]) then Some(-(ParseNatural(s[1..]) as int))
    else if |s| > 0 && AllDigits(s) then Some(ParseNatural(s))
    else None
  }

  lemma {:induction false} NaturalRoundTrip(n: nat)
    ensures |Natural(n)| > 0 && AllDigits(Natural(n))
    ensures ParseNatural(Natural(n)) == n
    ensures n > 0 ==> Natural(n)[0] != '0'
    ensures Natural(n)[0] == '0' ==> Natural(n) == "0"
    decreases n
  {
    if n >= 10 {
      NaturalRoundTrip(n / 10);
      var s := Natural(n);
      assert s[..|s| - 1] == Natural(n / 10);
    }
  }

  /** Every rendered integer reads back as itself, so the argument names the value exactly. */
  lemma FormatRoundTrip(n: int)
    ensures Parse(Format(n)) == Some(n)
  {
    if n < 0 {
      NaturalRoundTrip(-n);
      assert Format(n)[1..] == Natural(-n);
    } else {
      NaturalRoundTrip(n);
    }
  }
}
