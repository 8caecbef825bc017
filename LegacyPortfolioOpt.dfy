/** The older optimizer front end, payload/portfolio_opt.py: month
    arithmetic on dates, and a report that keeps only the positive weights
    and lists them from the largest down. */
module LegacyPortfolioOpt {
  import opened Common
  import opened Parsing
  import PortfolioOpt

  // ---------------------------------------------------------------------
  // months_from_date

  /** The year and month `months_from_date` computes:
      `year + math.floor(new_month / 12)` and `(new_month % 12) or 12`.
      For a positive divisor Python's floor division and modulo agree with
      Dafny's Euclidean ones. */
  function ShiftMonth(year: int, month: int, offset: int): (r: (int, int))
    ensures 1 <= r.1 <= 12
  {
    var newMonth := month + offset;
    (year + newMonth / 12, if newMonth % 12 == 0 then 12 else newMonth % 12)
  }

  /** `months_from_date(start_date, months_offset)`: the shifted year and
      month with the same day; `datetime.date` raises ValueError when that
      day does not exist in the new month or the year leaves 1..9999. */
  function MonthsFromDate(d: Date, offset: int): (r: Result<Date>)
    ensures r.Ok? ==> ValidDate(r.value) && r.value.day == d.day
    ensures r.Ok? ==> (r.value.year, r.value.month) == ShiftMonth(d.year, d.month, offset)
    ensures r.Err? ==> r.error == ValueError
  {
    var (y, m) := ShiftMonth(d.year, d.month, offset);
    var shifted := Date(y, m, d.day);
    if ValidDate(shifted) then Ok(shifted) else Err(ValueError)
  }

  /** How far, in months, the written arithmetic moves: exactly the offset,
      except a whole year further when the new month is a multiple of 12. */
  lemma ShiftMonthCount(year: int, month: int, offset: int)
    ensures var (y, m) := ShiftMonth(year, month, offset);
      12 * y + m == 12 * year + month + offset + (if (month + offset) % 12 == 0 then 12 else 0)
  {
  }

  /** Twelve more months is one more year, same month. */
  lemma ShiftMonthYear(year: int, month: int, offset: int)
    ensures ShiftMonth(year, month, offset + 12) ==
      (ShiftMonth(year, month, offset).0 + 1, ShiftMonth(year, month, offset).1)
  {
    var n := month + offset;
    assert (n + 12) / 12 == n / 12 + 1;
    assert (n + 12) % 12 == n % 12;
  }

  /** On dates: when both shifts exist, the one twelve months further is
      the same month and day one year later. */
  lemma MonthsFromDateYear(d: Date, offset: int)
    requires MonthsFromDate(d, offset).Ok? && MonthsFromDate(d, offset + 12).Ok?
    ensures var e := MonthsFromDate(d, offset).value;
      MonthsFromDate(d, offset + 12).value == Date(e.year + 1, e.month, e.day)
  {
    ShiftMonthYear(d.year, d.month, offset);
  }

  /** A shift that lands within a year keeps the month arithmetic exact
      exactly when the new month is not a multiple of 12. */
  lemma ShiftMonthExactIff(year: int, month: int, offset: int)
    ensures var (y, m) := ShiftMonth(year, month, offset);
      12 * y + m == 12 * year + month + offset <==> (month + offset) % 12 != 0
  {
    ShiftMonthCount(year, month, offset);
  }

  // ---------------------------------------------------------------------
  // Finding: the new month 12 lands a year late

  /** As written, a zero offset from a December date moves a year ahead,
      and six months from mid-June lands in December of the next year. */
  lemma MonthsFromDateAsWritten()
    ensures MonthsFromDate(Date(2020, 12, 1), 0) == Ok(Date(2021, 12, 1))
    ensures MonthsFromDate(Date(2020, 6, 15), 6) == Ok(Date(2021, 12, 15))
  {
    assert ShiftMonth(2020, 12, 0) == (2021, 12);
    assert ShiftMonth(2020, 6, 6) == (2021, 12);
  }

  /** The evident intent: count months from January of year 0, shift, and
      split back into a year and a month 1..12. */
  function ShiftMonthIntended(year: int, month: int, offset: int): (r: (int, int))
    ensures 1 <= r.1 <= 12
  {
    var k := month - 1 + offset;
    (year + k / 12, k % 12 + 1)
  }

  function MonthsFromDateIntended(d: Date, offset: int): (r: Result<Date>)
    ensures r.Ok? ==> ValidDate(r.value) && r.value.day == d.day
    ensures r.Ok? ==> (r.value.year, r.value.month) == ShiftMonthIntended(d.year, d.month, offset)
  {
    var (y, m) := ShiftMonthIntended(d.year, d.month, offset);
    var shifted := Date(y, m, d.day);
    if ValidDate(shifted) then Ok(shifted) else Err(ValueError)
  }

  /** The corrected shift moves by exactly `offset` months, agrees with the
      written one whenever the new month is not a multiple of 12, and is
      the identity for a zero offset. */
  lemma ShiftMonthIntendedExact(year: int, month: int, offset: int)
    requires 1 <= month <= 12
    ensures var (y, m) := ShiftMonthIntended(year, month, offset);
      12 * y + m == 12 * year + month + offset
    ensures (month + offset) % 12 != 0 ==> ShiftMonthIntended(year, month, offset) == ShiftMonth(year, month, offset)
    ensures ShiftMonthIntended(year, month, 0) == (year, month)
  {
    var k := month - 1 + offset;
    var n := month + offset;
    if n % 12 != 0 {
      assert k == 12 * (k / 12) + k % 12;
      assert n == 12 * (k / 12) + (k % 12 + 1);
    }
  }

  /** A valid date shifted by zero months is itself. */
  lemma MonthsFromDateIntendedZero(d: Date)
    requires ValidDate(d)
    ensures MonthsFromDateIntended(d, 0) == Ok(d)
  {
    ShiftMonthIntendedExact(d.year, d.month, 0);
  }

  // ---------------------------------------------------------------------
  // generate_report

  /** Weights in descending order. */
  predicate Descending(w: PortfolioOpt.Weights)
  {
    forall i, j :: 0 <= i < j < |w| ==> w[i].1 >= w[j].1
  }

  /** Inserts `x` before the first weight that is not above it, so that of
      equal weights the one inserted (earlier in the input) comes first. */
  function Insert(x: (string, real), s: PortfolioOpt.Weights): (r: PortfolioOpt.Weights)
    ensures multiset(r) == multiset(s) + multiset{x}
    ensures |r| == |s| + 1
  {
    if s == [] || x.1 >= s[0].1 then [x] + s
    else
      assert s == [s[0]] + s[1..];
      [s[0]] + Insert(x, s[1..])
  }

  lemma {:induction false} InsertDescending(x: (string, real), s: PortfolioOpt.Weights)
    requires Descending(s)
    ensures Descending(Insert(x, s))
    decreases |s|
  {
    if s != [] && x.1 < s[0].1 {
      InsertDescending(x, s[1..]);
      var r := Insert(x, s);
      var rest := Insert(x, s[1..]);
      assert r == [s[0]] + rest;
      forall k | 0 <= k < |rest|
        ensures s[0].1 >= rest[k].1
      {
        assert rest[k] in multiset(rest);
        assert rest[k] in multiset(s[1..]) + multiset{x};
        if rest[k] != x {
          assert rest[k] in s[1..];
          var j :| 0 <= j < |s[1..]| && s[1..][j] == rest[k];
          assert s[j + 1] == rest[k];
        }
      }
    }
  }

  /** `sorted(weights.items(), key=lambda kv: -kv[1])`, as an insertion
      sort. */
  function SortDescending(w: PortfolioOpt.Weights): (r: PortfolioOpt.Weights)
    ensures multiset(r) == multiset(w) && |r| == |w|
  {
    if w == [] then []
    else
      assert w == [w[0]] + w[1..];
      Insert(w[0], SortDescending(w[1..]))
  }

  /** The sort yields descending weights. */
  lemma {:induction false} SortDescendingSorted(w: PortfolioOpt.Weights)
    ensures Descending(SortDescending(w))
    decreases |w|
  {
    if w != [] {
      SortDescendingSorted(w[1..]);
      InsertDescending(w[0], SortDescending(w[1..]));
    }
  }

  /** The entries of weight exactly `v`, in their order. */
  function WithWeight(w: PortfolioOpt.Weights, v: real): PortfolioOpt.Weights
  {
    if w == [] then []
    else (if w[0].1 == v then [w[0]] else []) + WithWeight(w[1..], v)
  }

  lemma {:induction false} InsertWithWeight(x: (string, real), s: PortfolioOpt.Weights, v: real)
    ensures WithWeight(Insert(x, s), v) == (if x.1 == v then [x] else []) + WithWeight(s, v)
    decreases |s|
  {
    var r := Insert(x, s);
    if s != [] && x.1 < s[0].1 {
      InsertWithWeight(x, s[1..], v);
      assert r == [s[0]] + Insert(x, s[1..]);
      assert r[0] == s[0] && r[1..] == Insert(x, s[1..]);
      assert WithWeight(r, v) == (if s[0].1 == v then [s[0]] else []) + WithWeight(r[1..], v);
      assert WithWeight(s, v) == (if s[0].1 == v then [s[0]] else []) + WithWeight(s[1..], v);
    } else {
      assert r == [x] + s;
      assert r[0] == x && r[1..] == s;
      assert WithWeight(r, v) == (if x.1 == v then [x] else []) + WithWeight(r[1..], v);
    }
  }

  /** The sort is stable: entries of equal weight keep their input order. */
  lemma {:induction false} SortDescendingStable(w: PortfolioOpt.Weights, v: real)
    ensures WithWeight(SortDescending(w), v) == WithWeight(w, v)
    decreases |w|
  {
    if w != [] {
      SortDescendingStable(w[1..], v);
      InsertWithWeight(w[0], SortDescending(w[1..]), v);
    }
  }

  /** The report lines of this revision: four summary lines and then one
      line per kept weight. */
  datatype ReportLine =
    | ExpectedReturn(pct: real)
    | PortfolioReturn(begin: string, end: string, pct: real)
    | Volatility(pct: real)
    | SharpeRatio(ratio: real)
    | WeightLine(asset: string, pct: real)

  datatype Report = Report(weights: PortfolioOpt.Weights, lines: seq<ReportLine>)

  function WeightLines(w: PortfolioOpt.Weights): (r: seq<ReportLine>)
    ensures |r| == |w|
    ensures forall i :: 0 <= i < |w| ==> r[i] == WeightLine(w[i].0, 100.0 * w[i].1)
  {
    seq(|w|, i requires 0 <= i < |w| => WeightLine(w[i].0, 100.0 * w[i].1))
  }

  /** `generate_report` of this revision, on what its optimizer yields (the
      cleaned weights keyed by asset name, the performance) and on the
      forward evaluation of the kept weights, both left as parameters. */
  function GenerateReport(a: PortfolioOpt.Analysis,
                          forward: (string, string, PortfolioOpt.Weights) -> PortfolioOpt.ForwardReturn): (r: Report)
    ensures r.weights == PortfolioOpt.NonZeroWeights(a.cleanedWeights)
    ensures |r.lines| == 4 + |r.weights|
    ensures r.lines[4..] == WeightLines(SortDescending(r.weights))
  {
    var kept := PortfolioOpt.NonZeroWeights(a.cleanedWeights);
    var f := forward(a.rangeBegin, a.rangeEnd, kept);
    var p := a.performance;
    Report(kept,
      [ExpectedReturn(100.0 * p.expectedReturn), PortfolioReturn(f.rangeBegin, f.rangeEnd, 100.0 * f.weightedReturn),
       Volatility(100.0 * p.volatility), SharpeRatio(p.sharpe)]
      + WeightLines(SortDescending(kept)))
  }

  /** The four summary lines come first: the expected return, the portfolio
      return over the forward range and the volatility, each as a
      percentage, then the Sharpe ratio. */
  lemma ReportSummary(a: PortfolioOpt.Analysis,
                      forward: (string, string, PortfolioOpt.Weights) -> PortfolioOpt.ForwardReturn)
    ensures var r := GenerateReport(a, forward);
      var f := forward(a.rangeBegin, a.rangeEnd, r.weights);
      r.lines[..4] == [ExpectedReturn(100.0 * a.performance.expectedReturn),
                       PortfolioReturn(f.rangeBegin, f.rangeEnd, 100.0 * f.weightedReturn),
                       Volatility(100.0 * a.performance.volatility),
                       SharpeRatio(a.performance.sharpe)]
  {
  }

  /** Weight lines whose percentages run from the largest down. */
  predicate LinesDescending(ls: seq<ReportLine>)
  {
    forall i, j :: 0 <= i < j < |ls| ==> ls[i].WeightLine? && ls[j].WeightLine? && ls[i].pct >= ls[j].pct
  }

  lemma WeightLinesDescending(w: PortfolioOpt.Weights)
    requires Descending(w)
    ensures LinesDescending(WeightLines(w))
  {
  }

  /** Every weight has its line among the sorted weight lines. */
  lemma SortedLinesCover(w: PortfolioOpt.Weights)
    ensures forall x :: x in w ==> WeightLine(x.0, 100.0 * x.1) in WeightLines(SortDescending(w))
  {
    var s := SortDescending(w);
    var ls := WeightLines(s);
    forall x | x in w
      ensures WeightLine(x.0, 100.0 * x.1) in ls
    {
      assert x in multiset(w);
      assert x in multiset(s);
      var k :| 0 <= k < |s| && s[k] == x;
      assert ls[k] == WeightLine(x.0, 100.0 * x.1);
    }
  }

  /** Every returned weight is strictly positive and has its line. */
  lemma ReportWeights(a: PortfolioOpt.Analysis,
                      forward: (string, string, PortfolioOpt.Weights) -> PortfolioOpt.ForwardReturn)
    ensures forall x :: x in GenerateReport(a, forward).weights ==> x.1 > 0.0
    ensures forall x :: x in GenerateReport(a, forward).weights ==>
      WeightLine(x.0, 100.0 * x.1) in GenerateReport(a, forward).lines[4..]
  {
    var r := GenerateReport(a, forward);
    SortedLinesCover(r.weights);
    assert r.lines[4..] == WeightLines(SortDescending(r.weights));
  }

  /** The weight lines run from the largest percentage down. */
  lemma ReportLinesDescending(a: PortfolioOpt.Analysis,
                              forward: (string, string, PortfolioOpt.Weights) -> PortfolioOpt.ForwardReturn)
    ensures LinesDescending(GenerateReport(a, forward).lines[4..])
  {
    var w := GenerateReport(a, forward).weights;
    SortDescendingSorted(w);
    WeightLinesDescending(SortDescending(w));
  }
}
