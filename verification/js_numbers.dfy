/** Decimal integers as JavaScript reads and writes them: `String(n)` for an
    integer `n` and `parseInt(s, 10)`. Numbers are mathematical integers;
    floating-point rounding of very long digit strings is not modelled. */
module JsNumbers {
  import opened Options
  import opened JsStrings

  predicate IsDigit(c: char) {
    '0' <= c <= '9'
  }

  predicate AllDigits(s: string) {
    forall i :: 0 <= i < |s| ==> IsDigit(s[i])
  }

  function DigitValue(c: char): nat
    requires IsDigit(c)
  {
    c as int - '0' as int
  }

  function DigitChar(d: nat): (c: char)
    requires d < 10
    ensures IsDigit(c) && DigitValue(c) == d
  {
    (d + '0' as int) as char
  }

  /** The number a string of decimal digits denotes, most significant first. */
  function DigitsValue(ds: string): nat
    requires AllDigits(ds)
  {
    if |ds| == 0 then 0 else DigitsValue(ds[..|ds| - 1]) * 10 + DigitValue(ds[|ds| - 1])
  }

  /** `s` is a string of decimal digits denoting `v`. */
  predicate Numeral(s: string, v: nat) {
    AllDigits(s) && DigitsValue(s) == v
  }

  /** Appending a digit shifts the value one decimal place. */
  lemma DigitsValueSnoc(ds: string, c: char)
    requires AllDigits(ds) && IsDigit(c)
    ensures AllDigits(ds + [c])
    ensures DigitsValue(ds + [c]) == DigitsValue(ds) * 10 + DigitValue(c)
  {
    assert (ds + [c])[..|ds|] == ds;
  }

  /** A leading zero does not change the value of a digit string. */
  lemma {:induction false} LeadingZero(ds: string)
    requires AllDigits(ds)
    ensures AllDigits(['0'] + ds)
    ensures DigitsValue(['0'] + ds) == DigitsValue(ds)
  {
    if |ds| > 0 {
      var init := ds[..|ds| - 1];
      LeadingZero(init);
      assert ['0'] + ds == (['0'] + init) + [ds[|ds| - 1]];
      DigitsValueSnoc(['0'] + init, ds[|ds| - 1]);
    }
  }

  /** `String(n)` for a natural number: its shortest decimal numeral. */
  function Decimal(n: nat): (r: string)
    ensures |r| >= 1 && AllDigits(r)
    ensures DigitsValue(r) == n
    ensures |r| > 1 ==> r[0] != '0'
    ensures n >= 10 ==> |r| >= 2
  {
    if n < 10 then [DigitChar(n)]
    else
      var init := Decimal(n / 10);
      DigitsValueSnoc(init, DigitChar(n % 10));
      init + [DigitChar(n % 10)]
  }

  /** Numbers of three or more digits print with three or more digits. */
  lemma DecimalAtLeastThree(n: nat)
    requires n >= 100
    ensures |Decimal(n)| >= 3
  {
    assert |Decimal(n / 10)| >= 2;
  }

  /** `String(n)` for any integer: a minus sign in front of negatives. */
  function IntToString(n: int): (r: string)
    ensures |r| >= 1
  {
    if n < 0 then "-" + Decimal(-n) else Decimal(n)
  }

  /** The longest prefix of `s` made of decimal digits. */
  function DigitPrefix(s: string): (r: string)
    ensures |r| <= |s| && r == s[..|r|] && AllDigits(r)
    ensures |r| < |s| ==> !IsDigit(s[|r|])
  {
    if |s| > 0 && IsDigit(s[0]) then [s[0]] + DigitPrefix(s[1..]) else []
  }

  /** `parseInt(s, 10)`: skip leading white space, take one optional sign,
      then as many decimal digits as follow; `None` (JavaScript's `NaN`)
      when there is not at least one digit. Later characters are ignored. */
  function ParseInt(s: string): (r: Option<int>)
    ensures r.Some? ==> exists i :: 0 <= i < |s| && IsDigit(s[i])
  {
    ParseSigned(TrimStart(s))
  }

  /** `parseInt` after the white space: an optional sign, then digits. */
  function ParseSigned(t: string): (r: Option<int>)
    ensures r.Some? ==> exists i :: 0 <= i < |t| && IsDigit(t[i])
  {
    if |t| > 0 && t[0] == '-' then
      match ParseDigits(t[1..])
      case Some(v) => Some(-(v as int))
      case None => None
    else if |t| > 0 && t[0] == '+' then ParseNat(t[1..])
    else ParseNat(t)
  }

  /** The digit run at the front of `u` as a number, `None` if there is none. */
  function ParseDigits(u: string): (r: Option<nat>)
    ensures r.Some? <==> |u| > 0 && IsDigit(u[0])
  {
    var ds := DigitPrefix(u);
    if |ds| == 0 then None else Some(DigitsValue(ds))
  }

  /** `ParseDigits` widened to an integer result. */
  function ParseNat(u: string): (r: Option<int>)
    ensures r.Some? <==> |u| > 0 && IsDigit(u[0])
  {
    match ParseDigits(u)
    case Some(v) => Some(v as int)
    case None => None
  }

  /** White space in front of a string that does not itself start with
      white space is exactly what `TrimStart` removes. */
  lemma {:induction false} TrimStartSpaces(ws: string, x: string)
    requires AllSpace(ws)
    requires |x| == 0 || !IsSpace(x[0])
    ensures TrimStart(ws + x) == x
  {
    if |ws| > 0 {
      assert (ws + x)[1..] == ws[1..] + x;
      TrimStartSpaces(ws[1..], x);
    } else {
      assert ws + x == x;
    }
  }

  /** The digit run of `ds + rest` is `ds` when `rest` does not continue it. */
  lemma {:induction false} DigitPrefixOf(ds: string, rest: string)
    requires AllDigits(ds)
    requires |rest| == 0 || !IsDigit(rest[0])
    ensures DigitPrefix(ds + rest) == ds
  {
    if |ds| > 0 {
      assert (ds + rest)[1..] == ds[1..] + rest;
      DigitPrefixOf(ds[1..], rest);
    } else {
      assert ds + rest == rest;
    }
  }

  /** The optional sign `parseInt` accepts in front of the digits. */
  datatype Sign = Unsigned | Plus | Minus {

    function Text(): string {
      match this
      case Unsigned => ""
      case Plus => "+"
      case Minus => "-"
    }

    /** The value this sign gives a magnitude. */
    function Apply(magnitude: nat): int {
      if Minus? then -(magnitude as int) else magnitude
    }
  }

  /** The reading `parseInt` gives a string laid out as white space, an
      optional sign, a non-empty digit run and anything not starting with a
      digit: the signed value of the digit run. */
  lemma ParseIntOfParts(ws: string, sign: Sign, ds: string, rest: string)
    requires AllSpace(ws)
    requires |ds| > 0 && AllDigits(ds)
    requires |rest| == 0 || !IsDigit(rest[0])
    ensures ParseInt(ws + (sign.Text() + (ds + rest))) == Some(sign.Apply(DigitsValue(ds)))
  {
    var x := sign.Text() + (ds + rest);
    assert x[0] == if sign.Unsigned? then ds[0] else sign.Text()[0];
    TrimStartSpaces(ws, x);
    ParseIntSigned(sign, ds, rest);
  }

  /** `ParseIntOfParts` without leading white space. */
  lemma ParseIntSigned(sign: Sign, ds: string, rest: string)
    requires |ds| > 0 && AllDigits(ds)
    requires |rest| == 0 || !IsDigit(rest[0])
    ensures ParseInt(sign.Text() + (ds + rest)) == Some(sign.Apply(DigitsValue(ds)))
  {
    DigitPrefixOf(ds, rest);
    ParseIntAfterSign(ds + rest, sign);
  }

  /** The sign in front of a digit run is applied to its value. */
  lemma ParseIntAfterSign(u: string, sign: Sign)
    requires |u| > 0 && IsDigit(u[0])
    ensures ParseInt(sign.Text() + u) == match ParseDigits(u)
      case Some(v) => Some(sign.Apply(v))
      case None => None
  {
    var x := sign.Text() + u;
    NoSpaceInFront(x);
    if !sign.Unsigned? {
      assert x[1..] == u;
    } else {
      assert x == u;
    }
  }

  /** A string that starts with a sign or a digit has no white space to skip. */
  lemma NoSpaceInFront(x: string)
    requires |x| > 0 && (x[0] == '+' || x[0] == '-' || IsDigit(x[0]))
    ensures TrimStart(x) == x
  {
  }

  /** A bare digit string reads as its value. */
  lemma ParseIntDigits(ds: string)
    requires |ds| > 0 && AllDigits(ds)
    ensures ParseInt(ds) == Some(DigitsValue(ds) as int)
  {
    NoSpaceInFront(ds);
    DigitPrefixOf(ds, "");
    assert ds + "" == ds;
  }

  /** A minus sign and a digit string read as the negated value. */
  lemma ParseIntNegated(ds: string)
    requires |ds| > 0 && AllDigits(ds)
    ensures ParseInt(['-'] + ds) == Some(-(DigitsValue(ds) as int))
  {
    ParseDigitsAll(ds);
    ParseIntAfterSign(ds, Minus);
    assert Minus.Text() + ds == ['-'] + ds;
  }

  /** A digit string is its own digit run. */
  lemma {:induction false} ParseDigitsAll(ds: string)
    requires AllDigits(ds)
    ensures DigitPrefix(ds) == ds
    ensures |ds| > 0 ==> ParseDigits(ds) == Some(DigitsValue(ds))
  {
    if |ds| > 0 {
      ParseDigitsAll(ds[1..]);
      assert ds == [ds[0]] + ds[1..];
    }
  }

  /** A string without any decimal digit reads as `NaN`. */
  lemma ParseIntNoDigits(s: string)
    requires forall i :: 0 <= i < |s| ==> !IsDigit(s[i])
    ensures ParseInt(s) == None
  {
    var t := TrimStart(s);
    assert forall i :: 0 <= i < |t| ==> t[i] == s[|s| - |t| + i];
  }

  /** The reading `parseInt` gives every other string, laid out as white
      space, an optional sign and a rest that starts with no digit (and,
      without a sign, with no second sign or white space): `NaN`. With
      `ParseIntOfParts` this covers every string. */
  lemma ParseIntRejects(ws: string, sign: Sign, rest: string)
    requires AllSpace(ws)
    requires |rest| == 0 || !IsDigit(rest[0])
    requires sign.Unsigned? ==> |rest| == 0 || (rest[0] != '+' && rest[0] != '-' && !IsSpace(rest[0]))
    ensures ParseInt(ws + (sign.Text() + rest)) == None
  {
    var x := sign.Text() + rest;
    assert |x| > 0 && !sign.Unsigned? ==> x[0] == sign.Text()[0];
    TrimStartSpaces(ws, x);
    if !sign.Unsigned? {
      assert x[1..] == rest;
    }
  }

  /** `parseInt` reads back what `String` writes: `parseInt(String(n)) == n`. */
  lemma IntToStringRoundTrip(n: int)
    ensures ParseInt(IntToString(n)) == Some(n)
  {
    var sign := if n < 0 then Minus else Unsigned;
    var m: nat := if n < 0 then -n else n;
    ParseIntSigned(sign, Decimal(m), "");
    assert sign.Text() + (Decimal(m) + "") == IntToString(n);
  }
}
