/** The settings converters `as_days`/`as_date`, `as_pct` and `as_int`,
    identical in payload/portfolioOpt.py and payload/portfolio_opt.py: each
    passes `None` through and turns a string Python cannot convert into
    `None` instead of raising. */
module Parsing {
  import opened Common

  // ---------------------------------------------------------------------
  // Numbers

  /** A non-empty run of ASCII digits, as a natural number. */
  function ParseNat(s: string): (r: Option<nat>)
    ensures r.Some? <==> |s| > 0 && AllDigits(s)
  {
    if |s| > 0 && AllDigits(s) then Some(DigitsValue(s)) else None
  }

  /** Python's `int(s)` on an optionally signed run of digits. */
  function ParseInt(s: string): (r: Option<int>)
    ensures |s| > 0 && s[0] != '-' && s[0] != '+' ==> r == (if ParseNat(s).Some? then Some(ParseNat(s).value as int) else None)
  {
    if |s| > 0 && (s[0] == '-' || s[0] == '+') then
      match ParseNat(s[1..])
      case None => None
      case Some(n) => var v: int := n; if s[0] == '-' then Some(-v) else Some(v)
    else
      match ParseNat(s)
      case None => None
      case Some(n) => Some(n)
  }

  function IntToString(n: int): string
  {
    if n < 0 then "-" + NatToString(-n) else NatToString(n)
  }

  lemma IntRoundTrip(n: int)
    ensures ParseInt(IntToString(n)) == Some(n)
  {
    if n < 0 {
      NegativeRoundTrip(n);
    } else {
      NatToStringRoundTrip(n);
      UnsignedOfDigits(NatToString(n));
    }
  }

  lemma NegativeRoundTrip(n: int)
    requires n < 0
    ensures ParseInt(IntToString(n)) == Some(n)
  {
    NegativeSpelling(n);
    MagnitudeRoundTrip(n);
    NegativeOfDigits(NatToString(-n));
  }

  /** A negative integer is spelt as a minus sign before the digits of its
      magnitude. */
  lemma NegativeSpelling(n: int)
    requires n < 0
    ensures IntToString(n) == "-" + NatToString(-n)
  {
  }

  lemma MagnitudeRoundTrip(n: int)
    requires n < 0
    ensures DigitsValue(NatToString(-n)) == -n
  {
    NatToStringRoundTrip(-n);
  }

  /** A run of digits reads as its value. */
  lemma UnsignedOfDigits(s: string)
    requires |s| > 0 && AllDigits(s)
    ensures ParseInt(s) == Some(DigitsValue(s))
  {
    assert s[0] != '-' && s[0] != '+';
  }

  /** A minus sign followed by a run of digits reads as the negated value. */
  lemma NegativeOfDigits(s: string)
    requires |s| > 0 && AllDigits(s)
    ensures ParseInt("-" + s) == Some(-(DigitsValue(s) as int))
  {
    assert ("-" + s)[1..] == s;
  }

  /** Python's `float(s)` on an optionally signed decimal numeral with an
      optional fractional part. */
  function ParseDecimal(s: string): (r: Option<real>)
    ensures r.Some? ==> |s| > 0
    ensures r.Some? && |s| > 0 && s[0] == '-' ==> r.value <= 0.0
    ensures r.Some? && |s| > 0 && s[0] != '-' ==> r.value >= 0.0
  {
    if |s| > 0 && (s[0] == '-' || s[0] == '+') then
      match ParseUnsignedDecimal(s[1..])
      case None => None
      case Some(x) => Some(if s[0] == '-' then -x else x)
    else ParseUnsignedDecimal(s)
  }

  function Pow10r(k: nat): (r: real)
    ensures r >= 1.0
  {
    if k == 0 then 1.0 else 10.0 * Pow10r(k - 1)
  }

  function IndexOfDot(s: string): (r: Option<nat>)
    ensures r.Some? ==> r.value < |s| && s[r.value] == '.' && '.' !in s[..r.value]
    ensures r.None? ==> '.' !in s
  {
    if s == [] then None
    else if s[0] == '.' then Some(0)
    else match IndexOfDot(s[1..])
      case None => None
      case Some(i) => assert s[..i + 1] == [s[0]] + s[1..][..i]; Some(i + 1)
  }

  /** Digits, optionally a point and more digits; at least one digit. */
  function ParseUnsignedDecimal(s: string): (r: Option<real>)
    ensures r.Some? ==> |s| > 0 && r.value >= 0.0
  {
    match IndexOfDot(s)
    case None => if ParseNat(s).Some? then Some(ParseNat(s).value as real) else None
    case Some(i) =>
      var whole, frac := s[..i], s[i + 1..];
      if |whole| + |frac| > 0 && AllDigits(whole) && AllDigits(frac) then
        Some(DigitsValue(whole) as real + DigitsValue(frac) as real / Pow10r(|frac|))
      else None
  }

  lemma NoDotInDigits(s: string)
    requires AllDigits(s)
    ensures '.' !in s
  {
    forall i | 0 <= i < |s|
      ensures s[i] != '.'
    {
    }
  }

  /** `as_int`: `None` stays `None`; otherwise the parsed integer, or `None`
      when `int` would raise ValueError. */
  function AsInt(s: Option<string>): (r: Option<int>)
    ensures s.None? ==> r.None?
    ensures s.Some? ==> r == ParseInt(s.value)
  {
    match s
    case None => None
    case Some(t) => ParseInt(t)
  }

  /** `as_pct`: the parsed number divided by 100. */
  function AsPct(s: Option<string>): (r: Option<real>)
    ensures s.None? ==> r.None?
    ensures s.Some? ==> (r.Some? <==> ParseDecimal(s.value).Some?)
    ensures r.Some? ==> r.value * 100.0 == ParseDecimal(s.value).value
  {
    match s
    case None => None
    case Some(t) =>
      match ParseDecimal(t)
      case None => None
      case Some(x) => Some(x / 100.0)
  }

  lemma AsIntRoundTrip(n: int)
    ensures AsInt(Some(IntToString(n))) == Some(n)
  {
    IntRoundTrip(n);
  }

  /** A whole number of percent reads as that fraction: "5" is 0.05. */
  lemma AsPctOfWhole(n: nat)
    ensures AsPct(Some(NatToString(n))) == Some(n as real / 100.0)
  {
    var s := NatToString(n);
    NatToStringRoundTrip(n);
    DecimalOfDigits(s);
    PctOfDecimal(s, n as real);
  }

  /** `as_pct` divides what `float` reads by 100. */
  lemma PctOfDecimal(s: string, x: real)
    requires ParseDecimal(s) == Some(x)
    ensures AsPct(Some(s)) == Some(x / 100.0)
  {
  }

  /** A run of digits reads as its value. */
  lemma DecimalOfDigits(s: string)
    requires |s| > 0 && AllDigits(s)
    ensures ParseDecimal(s) == Some(DigitsValue(s) as real)
  {
    NoDotInDigits(s);
    assert IndexOfDot(s) == None;
    assert s[0] != '-' && s[0] != '+';
  }

  // ---------------------------------------------------------------------
  // Dates

  datatype Date = Date(year: int, month: int, day: int)

  predicate IsLeap(y: int)
  {
    y % 4 == 0 && (y % 100 != 0 || y % 400 == 0)
  }

  function DaysInMonth(y: int, m: int): int
    requires 1 <= m <= 12
  {
    if m == 2 then (if IsLeap(y) then 29 else 28)
    else if m == 4 || m == 6 || m == 9 || m == 11 then 30
    else 31
  }

  /** What `datetime.date(year, month, day)` accepts. */
  predicate ValidDate(d: Date)
  {
    1 <= d.year <= 9999 && 1 <= d.month <= 12 && 1 <= d.day <= DaysInMonth(d.year, d.month)
  }

  /** `%m`: one digit 1-9, or two digits 01-12. */
  function MonthField(t: string): (r: Option<int>)
    ensures r.Some? ==> 1 <= r.value <= 12
  {
    if 1 <= |t| <= 2 && AllDigits(t) && 1 <= DigitsValue(t) <= 12 then Some(DigitsValue(t)) else None
  }

  /** `%d`: one digit 1-9, two digits 01-31, or a space and a digit 1-9. */
  function DayField(t: string): (r: Option<int>)
    ensures r.Some? ==> 1 <= r.value <= 31
  {
    if 1 <= |t| <= 2 && AllDigits(t) && 1 <= DigitsValue(t) <= 31 then Some(DigitsValue(t))
    else if |t| == 2 && t[0] == ' ' && '1' <= t[1] <= '9' then Some(DigitValue(t[1]))
    else None
  }

  /** `datetime.strptime(s, '%Y-%m-%d')`: four year digits, a dash, the
      month, a dash and the day, with nothing left over, naming a real
      date. */
  function ParseDate(s: string): (r: Option<Date>)
    ensures r.Some? ==> ValidDate(r.value)
  {
    if |s| < 7 || !AllDigits(s[..4]) || s[4] != '-' then None
    else
      var rest := s[5..];
      var split: Option<(string, string)> :=
        if |rest| >= 2 && rest[1] == '-' then Some((rest[..1], rest[2..]))
        else if |rest| >= 3 && rest[2] == '-' then Some((rest[..2], rest[3..]))
        else None;
      if split.None? then None
      else
        var (mt, dt) := split.value;
        match (MonthField(mt), DayField(dt))
        case (Some(m), Some(d)) =>
          var date := Date(DigitsValue(s[..4]), m, d);
          if ValidDate(date) then Some(date) else None
        case _ => None
  }

  /** `as_days` / `as_date`. */
  function AsDate(s: Option<string>): (r: Option<Date>)
    ensures s.None? ==> r.None?
    ensures r.Some? ==> ValidDate(r.value)
  {
    match s
    case None => None
    case Some(t) => ParseDate(t)
  }

  /** `n` written with exactly `w` digits, zero-padded. */
  function PadDigits(n: nat, w: nat): (s: string)
    ensures |s| == w && AllDigits(s)
  {
    if w == 0 then [] else PadDigits(n / 10, w - 1) + [DigitChar(n % 10)]
  }

  function Pow10n(k: nat): nat
  {
    if k == 0 then 1 else 10 * Pow10n(k - 1)
  }

  lemma {:induction false} PadDigitsValue(n: nat, w: nat)
    requires n < Pow10n(w)
    ensures DigitsValue(PadDigits(n, w)) == n
  {
    if w > 0 {
      var s := PadDigits(n, w);
      PadDigitsValue(n / 10, w - 1);
      assert s[..|s| - 1] == PadDigits(n / 10, w - 1);
      DigitRoundTrip(n % 10);
    }
  }

  /** The ISO form `YYYY-MM-DD` of a date. */
  function FormatDate(d: Date): (r: string)
    requires ValidDate(d)
    ensures |r| == 10 && r[4] == '-' && r[7] == '-'
  {
    PadDigits(d.year, 4) + "-" + PadDigits(d.month, 2) + "-" + PadDigits(d.day, 2)
  }

  lemma FormatDateShape(d: Date)
    requires ValidDate(d)
    ensures var s := FormatDate(d);
      && |s| == 10 && s[..4] == PadDigits(d.year, 4) && s[4] == '-'
      && s[5..][1] != '-' && s[5..][2] == '-'
      && s[5..][..2] == PadDigits(d.month, 2) && s[5..][3..] == PadDigits(d.day, 2)
  {
    var m := PadDigits(d.month, 2);
    var s := FormatDate(d);
    assert s[5..] == m + "-" + PadDigits(d.day, 2);
    assert s[5..][1] == m[1];
  }

  lemma YearField(d: Date)
    requires ValidDate(d)
    ensures DigitsValue(PadDigits(d.year, 4)) == d.year
  {
    assert Pow10n(4) == 10000;
    PadDigitsValue(d.year, 4);
  }

  lemma TwoDigits(n: nat)
    requires n < 100
    ensures |PadDigits(n, 2)| == 2 && AllDigits(PadDigits(n, 2)) && DigitsValue(PadDigits(n, 2)) == n
  {
    assert Pow10n(2) == 100;
    PadDigitsValue(n, 2);
  }

  lemma MonthFieldOf(m: int)
    requires 1 <= m <= 12
    ensures MonthField(PadDigits(m, 2)) == Some(m)
  {
    TwoDigits(m);
  }

  lemma DayFieldOf(d: int)
    requires 1 <= d <= 31
    ensures DayField(PadDigits(d, 2)) == Some(d)
  {
    TwoDigits(d);
  }

  /** Every date reads back from its ISO form. */
  lemma DateRoundTrip(d: Date)
    requires ValidDate(d)
    ensures AsDate(Some(FormatDate(d))) == Some(d)
  {
    FormatDateShape(d);
    YearField(d);
    MonthFieldOf(d.month);
    DayFieldOf(d.day);
  }
}
