/**
 * Decimal text for Java `long` values: `String.valueOf(long)` (used when the
 * cookie-based login writes the member id into the `memberId` cookie) and the
 * decimal part of the conversion back to `Long` that binds
 * `@CookieValue Long memberId`.
 */
module Numerals {
  import opened Wrappers

  const LONG_MIN: int := -0x8000_0000_0000_0000
  const LONG_MAX: int := 0x7FFF_FFFF_FFFF_FFFF

  predicate IsDigit(c: char) { '0' <= c <= '9' }

  function DigitChar(d: nat): (c: char)
    requires d < 10
    ensures IsDigit(c) && (c as int) - ('0' as int) == d
  {
    (('0' as int) + d) as char
  }

  /** The digits of `n` without leading zeros. */
  function Digits(n: nat): (s: string)
    decreases n
    ensures |s| >= 1
    ensures forall i :: 0 <= i < |s| ==> IsDigit(s[i])
  {
    if n < 10 then [DigitChar(n)] else Digits(n / 10) + [DigitChar(n % 10)]
  }

  /** `String.valueOf(long)`: an optional minus sign followed by the digits. */
  function DecimalString(n: int): (s: string)
    ensures |s| >= 1 && (s[0] == '-' <==> n < 0)
    ensures s[0] == '-' || IsDigit(s[0])
    ensures forall i :: 0 < i < |s| ==> IsDigit(s[i])
  {
    if n < 0 then "-" + Digits(-n) else Digits(n)
  }

  predicate AllDigits(s: string)
  {
    forall i :: 0 <= i < |s| ==> IsDigit(s[i])
  }

  function DigitsValue(s: string): nat
    requires AllDigits(s)
    decreases |s|
  {
    if s == [] then 0
    else
      assert IsDigit(s[|s| - 1]);
      DigitsValue(s[..|s| - 1]) * 10 + ((s[|s| - 1] as int) - ('0' as int))
  }

  /** The text starts with a sign character. */
  predicate Signed(s: string)
  {
    |s| > 0 && (s[0] == '-' || s[0] == '+')
  }

  /** The text after an optional leading sign. */
  function Magnitude(s: string): string
  {
    if Signed(s) then s[1..] else s
  }

  /** The value decimal text denotes: the digits after the sign, negated after a minus sign. */
  function SignedValue(s: string): int
    requires AllDigits(Magnitude(s))
  {
    var m: int := DigitsValue(Magnitude(s));
    if |s| > 0 && s[0] == '-' then -m else m
  }

  /**
   * The decimal conversion to `Long` that binds `@CookieValue Long`: an
   * optional sign, at least one digit (leading zeros allowed), and a value
   * inside the 64-bit range; anything else is a conversion error.
   */
  function ParseLong(s: string): (r: Option<int>)
    ensures Magnitude(s) == [] || !AllDigits(Magnitude(s)) ==> r.None?
    ensures Magnitude(s) != [] && AllDigits(Magnitude(s)) ==>
              (r.Some? <==> LONG_MIN <= SignedValue(s) <= LONG_MAX)
    ensures r.Some? ==> AllDigits(Magnitude(s)) && r.value == SignedValue(s)
    ensures r.Some? ==> LONG_MIN <= r.value <= LONG_MAX
  {
    var body := Magnitude(s);
    if body == [] || exists i :: 0 <= i < |body| && !IsDigit(body[i]) then None
    else
      var v := SignedValue(s);
      if LONG_MIN <= v <= LONG_MAX then Some(v) else None
  }

  lemma {:induction false} DigitsValueOfDigits(n: nat)
    ensures DigitsValue(Digits(n)) == n
    decreases n
  {
    if n >= 10 {
      var s := Digits(n);
      assert s[..|s| - 1] == Digits(n / 10);
      DigitsValueOfDigits(n / 10);
    }
  }

  /** Writing a `long` in decimal and converting it back yields the same value. */
  lemma ParseDecimalString(n: int)
    requires LONG_MIN <= n <= LONG_MAX
    ensures ParseLong(DecimalString(n)) == Some(n)
  {
    var s := DecimalString(n);
    if n < 0 {
      var d := Digits(-n);
      assert s == "-" + d;
      assert Signed(s) && Magnitude(s) == d;
      DigitsValueOfDigits(-n);
      assert SignedValue(s) == n;
    } else {
      var d := Digits(n);
      assert s == d && d[0] != '-' && d[0] != '+' by {
        assert IsDigit(d[0]);
      }
      assert Magnitude(s) == d;
      DigitsValueOfDigits(n);
      assert SignedValue(s) == n;
    }
  }

  /** A leading zero does not change the value of a digit string. */
  lemma {:induction false} LeadingZero(d: string)
    requires AllDigits(d)
    ensures AllDigits("0" + d) && DigitsValue("0" + d) == DigitsValue(d)
    decreases |d|
  {
    var z := "0" + d;
    assert AllDigits(z) by {
      forall i | 0 <= i < |z| ensures IsDigit(z[i]) {
        if i > 0 { assert z[i] == d[i - 1]; }
      }
    }
    if d != [] {
      var init := d[..|d| - 1];
      assert z[..|z| - 1] == "0" + init;
      assert z[|z| - 1] == d[|d| - 1];
      LeadingZero(init);
    }
  }

  /** Non-canonical text is accepted too: a plus sign or leading zeros give the same value. */
  lemma ParseNonCanonical(n: nat)
    requires n <= LONG_MAX
    ensures ParseLong("+" + Digits(n)) == Some(n)
    ensures ParseLong("0" + Digits(n)) == Some(n)
  {
    DigitsValueOfDigits(n);
    var plus := "+" + Digits(n);
    assert Magnitude(plus) == Digits(n);
    var zero := "0" + Digits(n);
    LeadingZero(Digits(n));
    assert Magnitude(zero) == zero;
  }
}
