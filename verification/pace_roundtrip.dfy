/** How the pace axis labels and the pace parser fit together: every label
    the chart prints for a non-negative number of seconds reads back as that
    number. */
module PaceRoundTrip {
  import opened JsStrings
  import opened JsNumbers
  import opened JsValues
  import opened PaceParser
  import opened PaceFormat

  /** `r` is `mm:ss` where `mm` is a numeral of at least two digits for
      `minutes` and `ss` a numeral of exactly two digits for `seconds`. */
  predicate LabelOf(r: string, minutes: nat, seconds: nat) {
    && |r| >= 5
    && var k := |r| - 3;
    && r[k] == ':'
    && Numeral(r[..k], minutes)
    && Numeral(r[k + 1..], seconds)
  }

  /** A label splits into a minutes numeral of at least two digits, a
      colon, and a seconds numeral of exactly two digits, each denoting the
      number it was printed from. */
  lemma ClockShape(minutes: nat, seconds: nat)
    requires seconds < 100
    ensures LabelOf(Clock(minutes, seconds), minutes, seconds)
  {
    var mm := PadStart2(Decimal(minutes));
    var ss := PadStart2(Decimal(seconds));
    PaddedNumeral(minutes);
    PaddedNumeral(seconds);
    Halves(Clock(minutes, seconds), mm, ss, minutes, seconds);
  }

  /** Where the two numerals of `mm:ss` sit when `ss` has two characters. */
  lemma Halves(r: string, mm: string, ss: string, minutes: nat, seconds: nat)
    requires r == mm + [':'] + ss && |mm| >= 2 && |ss| == 2
    requires Numeral(mm, minutes) && Numeral(ss, seconds)
    ensures LabelOf(r, minutes, seconds)
  {
    assert r[..|r| - 3] == mm;
    assert r[|r| - 2..] == ss;
  }

  /** A label reads back as `minutes * 60 + seconds`, whatever the two
      numbers are. */
  lemma ClockValue(minutes: nat, seconds: nat)
    ensures ParsePaceToSeconds(Str(Clock(minutes, seconds))) == minutes * 60 + seconds
  {
    var mm := PadStart2(Decimal(minutes));
    var ss := PadStart2(Decimal(seconds));
    PaddedNumeral(minutes);
    PaddedNumeral(seconds);
    var r := Clock(minutes, seconds);
    assert r == mm + [':'] + ss;
    PaceOfNumerals(r, mm, ss);
  }

  /** Whole minutes and remaining seconds make up the total, and the
      remaining seconds are below a minute. */
  lemma MinutesAndSeconds(n: nat)
    ensures (n / 60) * 60 + n % 60 == n
    ensures n / 60 >= 0 && 0 <= n % 60 < 60
  {
  }

  /** A non-negative total prints as the label of its whole minutes and
      remaining seconds. */
  lemma FormatIsClock(n: nat) returns (minutes: nat, seconds: nat)
    ensures minutes * 60 + seconds == n && seconds < 60
    ensures minutes == n / 60 && seconds == n % 60
    ensures FormatPaceTick(n) == Clock(minutes, seconds)
  {
    MinutesAndSeconds(n);
    minutes, seconds := n / 60, n % 60;
  }

  /** Reading a printed pace back gives the seconds it was printed from:
      `parsePaceToSeconds(formatPaceTick(n)) == n` for every whole `n >= 0`. */
  lemma RoundTrip(n: nat)
    ensures ParsePaceToSeconds(Str(FormatPaceTick(n))) == n
  {
    var minutes, seconds := FormatIsClock(n);
    ClockValue(minutes, seconds);
  }

  /** The printed pace is a minutes numeral of at least two digits (never
      cut short), a colon, and a seconds numeral of exactly two digits,
      denoting the whole minutes and the remaining seconds of `n`. */
  lemma FormatShape(n: nat) returns (minutes: nat, seconds: nat)
    ensures minutes * 60 + seconds == n && seconds < 60
    ensures LabelOf(FormatPaceTick(n), minutes, seconds)
  {
    minutes, seconds := FormatIsClock(n);
    ClockShape(minutes, seconds);
  }

  /** From 100 minutes (6000 seconds) on, the minutes take three or more
      digits: padding never cuts a numeral short. */
  lemma LongMinutes(n: nat)
    requires n >= 6000
    ensures |FormatPaceTick(n)| >= 6
  {
    var minutes, seconds := FormatIsClock(n);
    LongClock(minutes, seconds);
  }

  /** A label for 100 minutes or more is at least six characters long. */
  lemma LongClock(minutes: nat, seconds: nat)
    requires minutes >= 100
    ensures |Clock(minutes, seconds)| >= 6
  {
    PaddedNumeral(minutes);
  }
}
