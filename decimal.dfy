/**
 * The decimal text of an `int`, as `std::to_string` writes it, and the
 * reading back that `std::stoi` performs on such text. Only text made of an
 * optional `-` and at least one digit is read; anything else is a failure.
 */
module Decimal {
  import opened Utils

  predicate IsDigit(c: char) {
    '0' <= c <= '9'
  }

  predicate AllDigits(s: string) {
    forall i :: 0 <= i < |s| ==> IsDigit(s[i])
  }

  function DigitChar(d: nat): char
    requires d < 10
  {
    "0123456789"[d]
  }

  function DigitValue(c: char): nat
    requires IsDigit(c)
  {
    (c as int - '0' as int) as nat
  }

  /** The digits of `n`, most significant first, with no leading zero. */
  function NatToString(n: nat): (s: string)
    ensures |s| > 0
    decreases n
  {
    if n < 10 then [DigitChar(n)] else NatToString(n / 10) + [DigitChar(n % 10)]
  }

  function IntToString(n: int): (s: string)
    ensures |s| > 0
  {
    if n < 0 then "-" + NatToString(-n) else NatToString(n)
  }

  /** The value of a non-empty run of digits, read most significant first; anything else fails. */
  function ParseDigits(s: string): Option<nat>
    decreases |s|
  {
    if |s| == 0 || !IsDigit(s[|s| - 1]) then None
    else if |s| == 1 then Some(DigitValue(s[0]))
    else match ParseDigits(s[..|s| - 1])
      case None => None
      case Some(m) => Some(10 * m + DigitValue(s[|s| - 1]))
  }

  /** The text is an optional minus sign followed by at least one digit. */
  predicate IsDecimal(s: string) {
    if |s| > 0 && s[0] == '-' then |s| > 1 && AllDigits(s[1..]) else |s| > 0 && AllDigits(s)
  }

  function ParseInt(s: string): Option<int> {
    if |s| > 0 && s[0] == '-' then
      match ParseDigits(s[1..])
      case None => None
      case Some(m) => Some(0 - m)
    else
      match ParseDigits(s)
      case None => None
      case Some(m) => Some(m as int)
  }

  lemma {:induction false} ParseDigitsAccepts(s: string)
    ensures ParseDigits(s).Some? <==> |s| > 0 && AllDigits(s)
    decreases |s|
  {
    if |s| > 1 {
      var init := s[..|s| - 1];
      ParseDigitsAccepts(init);
      if AllDigits(s) {
        assert AllDigits(init) by {
          forall i | 0 <= i < |init| ensures IsDigit(init[i]) { assert init[i] == s[i]; }
        }
      } else if IsDigit(s[|s| - 1]) && AllDigits(init) {
        forall i | 0 <= i < |s| ensures IsDigit(s[i]) {
          if i < |s| - 1 { assert s[i] == init[i]; }
        }
      }
    }
  }

  /** stoi succeeds exactly on decimal text. */
  lemma ParseIntAccepts(s: string)
    ensures ParseInt(s).Some? <==> IsDecimal(s)
  {
    if |s| > 0 && s[0] == '-' {
      ParseDigitsAccepts(s[1..]);
    } else {
      ParseDigitsAccepts(s);
    }
  }

  lemma {:induction false} NatRoundTrip(n: nat)
    ensures ParseDigits(NatToString(n)) == Some(n)
    decreases n
  {
    if n >= 10 {
      var s := NatToString(n);
      NatRoundTrip(n / 10);
      assert s[..|s| - 1] == NatToString(n / 10);
      assert DigitValue(DigitChar(n % 10)) == n % 10;
    } else {
      assert DigitValue(DigitChar(n)) == n;
    }
  }

  /** to_string writes digits only. */
  lemma {:induction false} NatDigits(n: nat)
    ensures AllDigits(NatToString(n))
    decreases n
  {
    if n >= 10 {
      NatDigits(n / 10);
      var s := NatToString(n);
      forall i | 0 <= i < |s| ensures IsDigit(s[i]) {
        if i < |s| - 1 { assert s[i] == NatToString(n / 10)[i]; }
      }
    }
  }

  /** A minus sign before a run of digits is read as the negated value of the digits. */
  lemma MinusText(t: string, m: nat)
    requires |t| > 0 && AllDigits(t) && ParseDigits(t) == Some(m)
    ensures IsDecimal("-" + t) && ParseInt("-" + t) == Some(0 - m)
  {
    assert ("-" + t)[1..] == t;
  }

  /** What to_string writes for a negative number is `-` and the digits of its magnitude. */
  lemma NegativeText(n: int)
    requires n < 0
    ensures IsDecimal(IntToString(n))
    ensures ParseInt(IntToString(n)) == Some(n)
  {
    NatRoundTrip(-n);
    NatDigits(-n);
    MinusText(NatToString(-n), -n);
  }

  /** Reading back what to_string wrote gives the number again. */
  lemma IntRoundTrip(n: int)
    ensures IsDecimal(IntToString(n))
    ensures ParseInt(IntToString(n)) == Some(n)
  {
    if n < 0 {
      NegativeText(n);
    } else {
      NatRoundTrip(n);
      NatDigits(n);
    }
  }
}
