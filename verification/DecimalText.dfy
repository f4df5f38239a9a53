/** `str(Decimal)` of a non-negative number, and scale-6 totals read back. */
module DecimalText {
  import opened Domain
  import opened Calendar

  function Digits(n: nat): (s: string)
    ensures |s| > 0 && forall i :: 0 <= i < |s| ==> IsDigit(s[i])
  {
    if n < 10 then [Digit(n)] else Digits(n / 10) + [Digit(n % 10)]
  }

  function Zeros(n: nat): (s: string)
    ensures |s| == n && forall i :: 0 <= i < n ==> s[i] == '0'
  {
    if n == 0 then "" else "0" + Zeros(n - 1)
  }

  /** `str(Decimal)` of `coefficient * 10^exponent`, by the decimal module's rule:
      plain notation only if the exponent is not positive and at most five zeros
      follow the point, scientific notation otherwise. */
  function DecimalStr(coefficient: nat, exponent: int): string {
    var digits := Digits(coefficient);
    var leftDigits := exponent + |digits|;
    var dotPlace := if exponent <= 0 && leftDigits > -6 then leftDigits else 1;
    var number :=
      if dotPlace <= 0 then "0." + Zeros(-dotPlace) + digits
      else if dotPlace >= |digits| then digits + Zeros(dotPlace - |digits|)
      else digits[..dotPlace] + "." + digits[dotPlace..];
    var e := leftDigits - dotPlace;
    if e == 0 then number else number + "E" + (if e < 0 then "-" + Digits(-e) else "+" + Digits(e))
  }

  /** `format_total_quantity` of a Numeric(38,6) value, in micro-units. */
  function FormatTotalQuantity(micro: nat): string {
    DecimalStr(micro, -6)
  }

  ghost predicate Plain(s: string) {
    forall i :: 0 <= i < |s| ==> s[i] == '.' || IsDigit(s[i])
  }

  /** Scientific notation appears exactly outside the plain range of the rule. */
  lemma PlainIff(coefficient: nat, exponent: int)
    ensures Plain(DecimalStr(coefficient, exponent)) <==>
            exponent <= 0 && exponent + |Digits(coefficient)| > -6
  {
    var digits := Digits(coefficient);
    var leftDigits := exponent + |digits|;
    var s := DecimalStr(coefficient, exponent);
    if exponent > 0 || leftDigits <= -6 {
      var number := if |digits| == 1 then digits + Zeros(0) else digits[..1] + "." + digits[1..];
      assert s[|number|] == 'E';
    }
  }

  /** With more than six digits the point stands before the last six. */
  lemma PointBeforeSix(micro: nat, left: string)
    requires |left| > 0 && Digits(micro) == left + "000000"
    ensures FormatTotalQuantity(micro) == left + ".000000"
  {
    var d := Digits(micro);
    assert d[..|left|] == left && d[|left|..] == "000000";
    assert left + "." + "000000" == left + ".000000";
  }

  lemma ZeroText()
    ensures FormatTotalQuantity(0) == Digits(0) + ".000000"
  {
    assert Digits(0) == "0" && Zeros(5) == "00000";
  }

  /** `n` whole units, the unit of a quota limit, print as `n` and six zeros. */
  lemma WholeUnits(n: nat)
    ensures FormatTotalQuantity(n * MICRO) == Digits(n) + ".000000"
  {
    if n == 0 {
      ZeroText();
    } else {
      SixZeros(n);
      PointBeforeSix(n * 1_000_000, Digits(n));
    }
  }

  lemma SixZeros(n: nat)
    requires n > 0
    ensures Digits(n * 1_000_000) == Digits(n) + "000000"
  {
    ThreeZeros(n);
    ThreeZeros(n * 1_000);
    assert Digits(n) + "000" + "000" == Digits(n) + "000000";
  }

  lemma ThreeZeros(n: nat)
    requires n > 0
    ensures Digits(n * 1_000) == Digits(n) + "000"
  {
    OneZero(n);
    OneZero(n * 10);
    OneZero(n * 100);
  }

  lemma OneZero(n: nat)
    requires n > 0
    ensures Digits(n * 10) == Digits(n) + "0"
  {
    assert n * 10 / 10 == n && n * 10 % 10 == 0;
  }

  function Number(s: string): nat
    requires forall i :: 0 <= i < |s| ==> IsDigit(s[i])
  {
    if |s| == 0 then 0 else Number(s[..|s| - 1]) * 10 + Value(s[|s| - 1])
  }

  lemma {:induction false} NumberOfDigits(n: nat)
    ensures Number(Digits(n)) == n
  {
    var s := Digits(n);
    if n >= 10 {
      assert s[..|s| - 1] == Digits(n / 10);
      NumberOfDigits(n / 10);
    } else {
      assert s[..0] == "";
    }
  }

  lemma {:induction false} LeadingZeros(zeros: string, s: string)
    requires forall i :: 0 <= i < |zeros| ==> zeros[i] == '0'
    requires forall i :: 0 <= i < |s| ==> IsDigit(s[i])
    ensures Number(zeros + s) == Number(s)
    decreases |zeros| + |s|
  {
    var t := zeros + s;
    if |s| > 0 {
      assert t[..|t| - 1] == zeros + s[..|s| - 1];
      LeadingZeros(zeros, s[..|s| - 1]);
    } else if |zeros| > 0 {
      assert t[..|t| - 1] == zeros[..|zeros| - 1] + s;
      LeadingZeros(zeros[..|zeros| - 1], s);
    }
  }

  /** Reads a number with exactly six decimals back into micro-units. */
  function ParseMicro(s: string): Option<nat> {
    if |s| < 8 || s[|s| - 7] != '.' then None
    else
      var digits := s[..|s| - 7] + s[|s| - 6..];
      if forall i :: 0 <= i < |digits| ==> IsDigit(digits[i]) then Some(Number(digits)) else None
  }

  lemma ShortScaleSix(micro: nat)
    requires |Digits(micro)| <= 6
    ensures FormatTotalQuantity(micro) == "0." + Zeros(6 - |Digits(micro)|) + Digits(micro)
  {
  }

  lemma LongScaleSix(micro: nat)
    requires |Digits(micro)| > 6
    ensures var d := Digits(micro);
            FormatTotalQuantity(micro) == d[..|d| - 6] + "." + d[|d| - 6..]
  {
  }

  lemma WithoutLeadingPoint(zeros: string, digits: string)
    requires |zeros| + |digits| == 6
    ensures var s := "0." + zeros + digits;
            |s| == 8 && s[1] == '.' && s[..1] + s[2..] == "0" + zeros + digits
  {
    var s := "0." + zeros + digits;
    assert s[..1] == "0" && s[2..] == zeros + digits;
    assert "0" + (zeros + digits) == "0" + zeros + digits;
  }

  lemma WithoutPoint(left: string, right: string)
    requires |left| > 0 && |right| == 6
    ensures var s := left + "." + right;
            |s| >= 8 && s[|s| - 7] == '.' && s[..|s| - 7] + s[|s| - 6..] == left + right
  {
    var s := left + "." + right;
    assert s[..|s| - 7] == left && s[|s| - 6..] == right;
  }

  /** The text of a scale-6 number, and what is left of it without the point. */
  lemma ScaleSix(micro: nat)
    ensures var d, s := Digits(micro), FormatTotalQuantity(micro);
            && |s| >= 8 && s[|s| - 7] == '.'
            && s[..|s| - 7] + s[|s| - 6..] == if |d| <= 6 then "0" + Zeros(6 - |d|) + d else d
  {
    var d := Digits(micro);
    if |d| <= 6 {
      ShortScaleSix(micro);
      WithoutLeadingPoint(Zeros(6 - |d|), d);
    } else {
      LongScaleSix(micro);
      WithoutPoint(d[..|d| - 6], d[|d| - 6..]);
      assert d[..|d| - 6] + d[|d| - 6..] == d;
    }
  }

  /** A scale-6 total prints in plain notation and reads back exactly. */
  lemma TotalRoundTrip(micro: nat)
    ensures Plain(FormatTotalQuantity(micro)) && ParseMicro(FormatTotalQuantity(micro)) == Some(micro)
  {
    var d := Digits(micro);
    PlainIff(micro, -6);
    NumberOfDigits(micro);
    ScaleSix(micro);
    if |d| <= 6 {
      LeadingZeros("0" + Zeros(6 - |d|), d);
    }
  }
}
