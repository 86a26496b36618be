/** `formatPaceTick` of src/components/graphs.tsx, restricted to whole
    seconds: a number of seconds printed as `"MM:SS"` for the chart's pace
    axis and tooltip. */
module PaceFormat {
  import opened JsStrings
  import opened JsNumbers

  /** Negative input prints as nothing. Otherwise the whole minutes and the
      remaining seconds are each printed in decimal and zero-padded to at
      least two characters, joined by `:`. */
  function FormatPaceTick(totalSeconds: int): (r: string)
    ensures totalSeconds < 0 <==> r == ""
  {
    if totalSeconds < 0 then ""
    else Clock(totalSeconds / 60, totalSeconds % 60)
  }

  /** The label for a number of minutes and seconds, each padded to two
      digits: never shorter than `"00:00"`. */
  function Clock(minutes: nat, seconds: nat): (r: string)
    ensures |r| >= 5
  {
    PadStart2(Decimal(minutes)) + [':'] + PadStart2(Decimal(seconds))
  }

  /** `String(n).padStart(2, '0')` is a numeral of at least two digits for
      `n`: exactly two below 100, three or more from 100 on. */
  lemma PaddedNumeral(n: nat)
    ensures var p := PadStart2(Decimal(n));
      && |p| >= 2 && AllDigits(p) && DigitsValue(p) == n
      && (n < 100 ==> |p| == 2)
      && (n >= 100 ==> |p| >= 3)
  {
    var d := Decimal(n);
    DecimalWidth(n);
    if |d| == 1 {
      PadOne(d);
      LeadingZero(d);
    } else {
      PadNone(d);
      if n >= 100 {
        DecimalAtLeastThree(n);
      }
    }
  }

  /** Numerals below 10 have one digit, those below 100 two. */
  lemma DecimalWidth(n: nat)
    ensures n < 10 ==> |Decimal(n)| == 1
    ensures 10 <= n < 100 ==> |Decimal(n)| == 2
  {
    if n >= 10 {
      assert Decimal(n) == Decimal(n / 10) + [DigitChar(n % 10)];
    }
  }

  /** A one-character string gets one zero in front. */
  lemma PadOne(d: string)
    requires |d| == 1
    ensures PadStart2(d) == ['0'] + d
  {
  }

  /** A string of two or more characters is not padded. */
  lemma PadNone(d: string)
    requires |d| >= 2
    ensures PadStart2(d) == d
  {
  }

  /** 443 seconds print as `"07:23"`. */
  lemma Example443()
    ensures FormatPaceTick(443) == "07:23"
  {
    assert 443 / 60 == 7 && 443 % 60 == 23;
    assert Decimal(7) == "7";
    assert Decimal(23) == Decimal(2) + "3";
    PadOne("7");
    PadNone("23");
  }
}
