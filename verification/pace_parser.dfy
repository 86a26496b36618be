/** `parsePaceToSeconds` of src/utils/runningDataUtils.ts: a pace written
    `"MM:SS"` becomes a number of seconds, with 0 standing for "invalid". */
module PaceParser {
  import opened Options
  import opened JsStrings
  import opened JsNumbers
  import opened JsValues

  /** Falsy, non-string and colon-free values give 0. Otherwise the text is
      split at every `:`, the first two fields are read with `parseInt`, and
      the result is `minutes * 60 + seconds`, or 0 if either field has no
      leading integer. Seconds are not range-checked, fields after the
      second are ignored, and signs and trailing characters are accepted
      as `parseInt` accepts them. The guard's `includes(':')` is written as
      membership of the character, which `IncludesOne` shows is the same. */
  function ParsePaceToSeconds(pace: JsValue): (r: int)
    ensures !pace.Str? ==> r == 0
  {
    if !Truthy(pace) || !pace.Str? || ':' !in pace.s then 0
    else
      var parts := Split(pace.s, ':');
      SplitHasTwoFields(pace.s, ':');
      var minutes := ParseInt(parts[0]);
      var seconds := ParseInt(parts[1]);
      if minutes.None? || seconds.None? then 0
      else minutes.value * 60 + seconds.value
  }

  /** `null`, `undefined`, the empty string, any non-string and any string
      without a colon read as the invalid pace 0. */
  lemma InvalidPaceIsZero(pace: JsValue)
    requires pace.IsNullish() || !pace.Str? || ':' !in pace.s
    ensures ParsePaceToSeconds(pace) == 0
  {
  }

  /** The guard reads as in the source: a text for which `includes(':')` is
      false is the invalid pace 0. */
  lemma NoColonIsZero(s: string)
    requires !Includes(s, ":")
    ensures ParsePaceToSeconds(Str(s)) == 0
  {
    IncludesOne(s, ':');
  }

  /** A text `a:b` followed by nothing or by a further `:`-field is read from
      `a` and `b` alone: 0 when either has no leading integer, and otherwise
      `parseInt(a) * 60 + parseInt(b)`. */
  lemma PaceOfFields(a: string, b: string, tail: string)
    requires ':' !in a && ':' !in b
    requires |tail| == 0 || tail[0] == ':'
    ensures var r := ParsePaceToSeconds(Str(a + [':'] + b + tail));
      && (ParseInt(a).None? || ParseInt(b).None? ==> r == 0)
      && (ParseInt(a).Some? && ParseInt(b).Some? ==> r == ParseInt(a).value * 60 + ParseInt(b).value)
  {
    var s := a + [':'] + b + tail;
    FieldsOf(a, b, tail);
    assert s[|a|] == ':';
  }

  /** The first two fields of `a:b` followed by nothing or by `:`-fields. */
  lemma FieldsOf(a: string, b: string, tail: string)
    requires ':' !in a && ':' !in b
    requires |tail| == 0 || tail[0] == ':'
    ensures var fields := Split(a + [':'] + b + tail, ':');
      |fields| >= 2 && fields[0] == a && fields[1] == b
  {
    var s := a + [':'] + b + tail;
    assert s == a + [':'] + (b + tail);
    SplitOfSeparatorFree(a, ':');
    SplitOfSeparatorFree(b, ':');
    SplitAppend(a, ':', b + tail);
    var later := Split(b + tail, ':');
    if |tail| == 0 {
      assert b + tail == b;
    } else {
      assert b + tail == b + [':'] + tail[1..];
      SplitAppend(b, ':', tail[1..]);
      PrefixIndex([b], Split(tail[1..], ':'), 0);
    }
    assert later[0] == b;
    FirstTwo(a, later);
  }

  /** The first two elements of `[x] + ys`. */
  lemma FirstTwo<T>(x: T, ys: seq<T>)
    requires |ys| >= 1
    ensures ([x] + ys)[0] == x && ([x] + ys)[1] == ys[0]
  {
  }

  /** Appending to a sequence leaves its first elements in place. */
  lemma PrefixIndex<T>(xs: seq<T>, ys: seq<T>, i: nat)
    requires i < |xs|
    ensures (xs + ys)[i] == xs[i]
  {
  }

  /** Fields after the second never change the result. */
  lemma OnlyFirstTwoFieldsMatter(s: string, tail: string)
    requires ':' in s
    ensures ParsePaceToSeconds(Str(s + [':'] + tail)) == ParsePaceToSeconds(Str(s))
  {
    var longer := s + [':'] + tail;
    SplitAppend(s, ':', tail);
    SplitHasTwoFields(s, ':');
    var fields := Split(s, ':');
    PrefixIndex(fields, Split(tail, ':'), 0);
    PrefixIndex(fields, Split(tail, ':'), 1);
    assert ':' in longer by { assert longer[|s|] == ':'; }
    assert Split(longer, ':')[0] == fields[0] && Split(longer, ':')[1] == fields[1];
  }

  /** A pace with an empty seconds field, such as `"7:"`, is invalid. */
  lemma EmptySecondsField(a: string)
    requires ':' !in a
    ensures ParsePaceToSeconds(Str(a + [':'])) == 0
  {
    ParseIntNoDigits("");
    PaceOfFields(a, "", "");
    assert a + [':'] + "" + "" == a + [':'];
  }

  /** Any two unsigned numerals give `minutes * 60 + seconds`, whatever
      their width and with no upper bound on the seconds. */
  lemma PaceOfNumerals(s: string, mm: string, ss: string)
    requires |mm| > 0 && AllDigits(mm) && |ss| > 0 && AllDigits(ss)
    requires s == mm + [':'] + ss
    ensures ParsePaceToSeconds(Str(s)) == DigitsValue(mm) * 60 + DigitsValue(ss)
  {
    DigitsHaveNoColon(mm);
    DigitsHaveNoColon(ss);
    ParseIntDigits(mm);
    ParseIntDigits(ss);
    PaceOfFields(mm, ss, "");
    assert mm + [':'] + ss + "" == s;
  }

  /** A minus sign applies to the minutes only, and the total can be
      negative: `"-1:30"` is -60 + 30 = -30. */
  lemma PaceOfNegativeMinutes(mm: string, ss: string)
    requires |mm| > 0 && AllDigits(mm) && |ss| > 0 && AllDigits(ss)
    ensures ParsePaceToSeconds(Str(['-'] + mm + [':'] + ss))
         == -(DigitsValue(mm) as int) * 60 + DigitsValue(ss)
  {
    var m := ['-'] + mm;
    DigitsHaveNoColon(mm);
    DigitsHaveNoColon(ss);
    assert ':' !in m;
    ParseIntNegated(mm);
    ParseIntDigits(ss);
    PaceOfFields(m, ss, "");
    assert m + [':'] + ss + "" == ['-'] + mm + [':'] + ss;
  }

  lemma DigitsHaveNoColon(ds: string)
    requires AllDigits(ds)
    ensures ':' !in ds
  {
  }

  /** `"07:23"` is 443 seconds. */
  lemma Example443()
    ensures ParsePaceToSeconds(Str("07:23")) == 443
  {
    Numeral2("07", 7);
    Numeral2("23", 23);
    PaceOfNumerals("07:23", "07", "23");
  }

  /** `"06:10"` is 370 seconds. */
  lemma Example370()
    ensures ParsePaceToSeconds(Str("06:10")) == 370
  {
    Numeral2("06", 6);
    Numeral2("10", 10);
    PaceOfNumerals("06:10", "06", "10");
  }

  /** `"7:5"` is 425 seconds: the seconds need no zero padding. */
  lemma Example425()
    ensures ParsePaceToSeconds(Str("7:5")) == 425
  {
    assert DigitsValue("7") == 7 && DigitsValue("5") == 5;
    PaceOfNumerals("7:5", "7", "5");
  }

  /** `"1:75"` is 135 seconds: seconds of 60 or more are not rejected. */
  lemma Example135()
    ensures ParsePaceToSeconds(Str("1:75")) == 135
  {
    Numeral2("75", 75);
    assert DigitsValue("1") == 1;
    PaceOfNumerals("1:75", "1", "75");
  }

  /** `"1:2:3"` is 62 seconds: the third field is ignored. */
  lemma ExampleThreeFields()
    ensures ParsePaceToSeconds(Str("1:2:3")) == 62
  {
    assert "1:2:3" == "1:2" + [':'] + "3";
    assert "1:2" == "1" + [':'] + "2";
    assert ':' in "1:2";
    OnlyFirstTwoFieldsMatter("1:2", "3");
    assert DigitsValue("1") == 1 && DigitsValue("2") == 2;
    PaceOfNumerals("1:2", "1", "2");
  }

  /** `"abc:10"` is invalid: the minutes field holds no integer. */
  lemma ExampleLetters()
    ensures ParsePaceToSeconds(Str("abc:10")) == 0
  {
    ParseIntNoDigits("abc");
    PaceOfFields("abc", "10", "");
    assert "abc" + [':'] + "10" + "" == "abc:10";
  }

  /** The value of a two-digit numeral. */
  lemma Numeral2(ds: string, v: nat)
    requires |ds| == 2 && AllDigits(ds)
    requires v == DigitValue(ds[0]) * 10 + DigitValue(ds[1])
    ensures DigitsValue(ds) == v
  {
    var first := ds[..1];
    assert first[..0] == [];
    assert DigitsValue(first) == DigitValue(ds[0]);
  }
}
