/** The pricing table of payload/portfolioOpt.py: every market `A/B` of the
    OHLCV dict contributes one close-price column, named after the asset
    that is not the base (with reciprocal prices when the base is quoted
    first), and a constant-1 column for the base asset comes last. Also
    the weight filter and the report lines of `generate_report`, with the
    optimizer and the forward-looking return as parameters. */
module PortfolioOpt {
  import opened Common
  import MarketCatalog

  /** One OHLCV row as the exchange delivers it. */
  datatype Candle = Candle(time: int, open: real, high: real, low: real, close: real, volume: real)

  datatype Column = Column(name: string, cells: seq<real>)

  /** A DataFrame as its columns in insertion order; rows are positions. */
  type Table = seq<Column>

  /** `portfolio_ohlcv.items()`: market symbol and candles, in dict order. */
  type Ohlcv = seq<(string, seq<Candle>)>

  function Names(t: Table): seq<string>
  {
    seq(|t|, i requires 0 <= i < |t| => t[i].name)
  }

  /** `len(df)`: the row count, fixed by the first column assigned. */
  function RowCount(t: Table): nat
  {
    if t == [] then 0 else |t[0].cells|
  }

  function Closes(cs: seq<Candle>): (r: seq<real>)
    ensures |r| == |cs| && forall i :: 0 <= i < |cs| ==> r[i] == cs[i].close
  {
    seq(|cs|, i requires 0 <= i < |cs| => cs[i].close)
  }

  /** No close is 0. `Series.apply` hands the lambda plain Python floats,
      so `1/x` of a zero close raises ZeroDivisionError. */
  predicate NonZeroCloses(cs: seq<Candle>)
  {
    forall i :: 0 <= i < |cs| ==> cs[i].close != 0.0
  }

  /** `lambda x: 1/x` on a non-zero float. */
  function Recip(x: real): (r: real)
    requires x != 0.0
    ensures r * x == 1.0
  {
    1.0 / x
  }

  /** `data['c'].apply(lambda x: 1/x)` on closes none of which is 0. */
  function Reciprocals(cs: seq<Candle>): (r: seq<real>)
    requires NonZeroCloses(cs)
    ensures |r| == |cs| && forall i :: 0 <= i < |cs| ==> r[i] * cs[i].close == 1.0
  {
    seq(|cs|, i requires 0 <= i < |cs| => Recip(cs[i].close))
  }

  function Ones(n: nat): (r: seq<real>)
    ensures |r| == n && forall i :: 0 <= i < n ==> r[i] == 1.0
  {
    seq(n, i requires 0 <= i < n => 1.0)
  }

  /** Where a market's closes go: the column name and whether they are
      flipped. */
  datatype Placement = Placement(name: string, flipped: bool)

  /** `asset1, asset2 = m.split('/')` and the `asset1 != base_asset` test;
      anything but two pieces fails to unpack (ValueError). */
  function PlaceMarket(m: string, base: string): (r: Result<Placement>)
    ensures r.Ok? <==> |MarketCatalog.Split(m)| == 2
    ensures r.Ok? && r.value.name == base ==> MarketCatalog.Split(m) == [base, base]
  {
    var parts := MarketCatalog.Split(m);
    if |parts| != 2 then Err(ValueError)
    else if parts[0] != base then Ok(Placement(parts[0], false))
    else Ok(Placement(parts[1], true))
  }

  /** The column a market `a/b` feeds: `a` with its closes, unless `a` is
      the base, then `b` with the reciprocal closes. */
  lemma PlaceMarketOfPair(a: string, b: string, base: string)
    requires '/' !in a && '/' !in b
    ensures PlaceMarket(a + "/" + b, base) ==
      Ok(if a != base then Placement(a, false) else Placement(b, true))
  {
    MarketCatalog.SplitPair(a, b);
  }

  /** One loop iteration up to the assignment: `numpy.array([])` has no
      row 0 (IndexError); then the split (ValueError); then, for a flipped
      market, `1/x` of every close (ZeroDivisionError on a zero close). */
  function ColumnOf(entry: (string, seq<Candle>), base: string): (r: Result<Column>)
    ensures r.Ok? <==> |entry.1| > 0 && PlaceMarket(entry.0, base).Ok?
                       && (PlaceMarket(entry.0, base).value.flipped ==> NonZeroCloses(entry.1))
    ensures r.Err? ==> r.error == if |entry.1| == 0 then IndexError
                                  else if PlaceMarket(entry.0, base).Err? then ValueError
                                  else ZeroDivisionError
    ensures r.Ok? ==> r.value.name == PlaceMarket(entry.0, base).value.name && |r.value.cells| == |entry.1|
    ensures r.Ok? && !PlaceMarket(entry.0, base).value.flipped ==> r.value.cells == Closes(entry.1)
    ensures r.Ok? && PlaceMarket(entry.0, base).value.flipped ==>
              NonZeroCloses(entry.1) && r.value.cells == Reciprocals(entry.1)
  {
    if |entry.1| == 0 then Err(IndexError)
    else match PlaceMarket(entry.0, base)
      case Err(e) => Err(e)
      case Ok(p) =>
        if !p.flipped then Ok(Column(p.name, Closes(entry.1)))
        else if NonZeroCloses(entry.1) then Ok(Column(p.name, Reciprocals(entry.1)))
        else Err(ZeroDivisionError)
  }

  function IndexOfName(t: Table, name: string): (r: Option<nat>)
    ensures r.Some? ==> r.value < |t| && t[r.value].name == name
    ensures r.None? <==> name !in Names(t)
  {
    if t == [] then None
    else if t[0].name == name then assert Names(t)[0] == name; Some(0)
    else match IndexOfName(t[1..], name)
      case None => assert Names(t) == [t[0].name] + Names(t[1..]); None
      case Some(i) => assert Names(t)[i + 1] == name; Some(i + 1)
  }

  /** `df[name] = cells`: an existing column is overwritten where it
      stands, a new one goes to the end. */
  function SetColumn(t: Table, c: Column): (r: Table)
    ensures |t| <= |r| <= |t| + 1
  {
    match IndexOfName(t, c.name)
    case Some(i) => t[i := c]
    case None => t + [c]
  }

  lemma SetColumnNames(t: Table, c: Column)
    ensures Names(SetColumn(t, c)) == if c.name in Names(t) then Names(t) else Names(t) + [c.name]
  {
    var r := SetColumn(t, c);
    match IndexOfName(t, c.name)
    case Some(i) =>
      assert c.name in Names(t) by { assert Names(t)[i] == c.name; }
      assert Names(r) == Names(t);
    case None =>
      assert Names(r) == Names(t) + [c.name];
  }

  /** Within a table of distinct names, the assigned column holds exactly
      the new cells, every other column is as it was, and the names stay
      distinct. */
  lemma SetColumnCells(t: Table, c: Column)
    requires NoDuplicates(Names(t))
    ensures NoDuplicates(Names(SetColumn(t, c)))
    ensures exists i :: 0 <= i < |SetColumn(t, c)| && SetColumn(t, c)[i] == c
    ensures forall i :: 0 <= i < |SetColumn(t, c)| && SetColumn(t, c)[i].name == c.name ==>
              SetColumn(t, c)[i] == c
    ensures forall i :: 0 <= i < |t| && t[i].name != c.name ==> SetColumn(t, c)[i] == t[i]
    ensures |SetColumn(t, c)| == if c.name in Names(t) then |t| else |t| + 1
    ensures forall i :: 0 <= i < |SetColumn(t, c)| ==> SetColumn(t, c)[i] == c || (i < |t| && SetColumn(t, c)[i] == t[i])
  {
    SetColumnNames(t, c);
    var r := SetColumn(t, c);
    match IndexOfName(t, c.name)
    case Some(i) =>
      assert r[i] == c;
      forall j | 0 <= j < |r| && r[j].name == c.name
        ensures r[j] == c
      {
        assert Names(t)[j] == Names(t)[i];
        SameAtDistinct(Names(t), i, j);
      }
    case None =>
      assert r[|t|] == c;
      forall j | 0 <= j < |t|
        ensures t[j].name != c.name
      {
        assert Names(t)[j] == t[j].name;
      }
      assert NoDuplicates(Names(r)) by {
        forall j, k | 0 <= j < k < |Names(r)|
          ensures Names(r)[j] != Names(r)[k]
        {
          if k == |t| {
            assert Names(t)[j] == t[j].name;
          }
        }
      }
  }

  /** In a list without duplicates equal entries sit at one position. */
  lemma SameAtDistinct<T>(s: seq<T>, i: nat, j: nat)
    requires NoDuplicates(s) && i < |s| && j < |s| && s[i] == s[j]
    ensures i == j
  {
  }

  // ---------------------------------------------------------------------
  // build_pricing_data_from_ohlcv

  /** The loop over the markets in dict order: each one assigns its column. */
  function MarketColumns(ohlcv: Ohlcv, base: string): (r: Result<Table>)
    ensures r.Err? ==> r.error in {IndexError, ValueError, ZeroDivisionError}
    ensures r.Ok? ==> |r.value| <= |ohlcv|
    decreases |ohlcv|
  {
    if ohlcv == [] then Ok([])
    else match MarketColumns(ohlcv[..|ohlcv| - 1], base)
      case Err(e) => Err(e)
      case Ok(t) =>
        match ColumnOf(ohlcv[|ohlcv| - 1], base)
        case Err(e) => Err(e)
        case Ok(c) => Ok(SetColumn(t, c))
  }

  /** `build_pricing_data_from_ohlcv(portfolio_ohlcv, base_asset)`: the
      market columns, then `data_c[base_asset] = 1` over the rows there are. */
  function BuildPricingData(ohlcv: Ohlcv, base: string): (r: Result<Table>)
    ensures r.Ok? <==> MarketColumns(ohlcv, base).Ok?
    ensures r.Ok? ==> |r.value| <= |ohlcv| + 1
  {
    match MarketColumns(ohlcv, base)
    case Err(e) => Err(e)
    case Ok(t) => Ok(SetColumn(t, BaseColumn(t, base)))
  }

  function BaseColumn(t: Table, base: string): Column
  {
    Column(base, Ones(RowCount(t)))
  }

  /** Every market fits: it has candles and a two-sided symbol, and a
      flipped one has no zero close. */
  predicate AllPlaced(ohlcv: Ohlcv, base: string)
  {
    forall i :: 0 <= i < |ohlcv| ==> ColumnOf(ohlcv[i], base).Ok?
  }

  /** The column names the markets ask for. */
  ghost function PlacedNames(ohlcv: Ohlcv, base: string): set<string>
  {
    set i | 0 <= i < |ohlcv| && ColumnOf(ohlcv[i], base).Ok? :: ColumnOf(ohlcv[i], base).value.name
  }

  /** The build fails exactly when some market has no candles, a symbol
      that is not `A/B`, or is flipped and has a zero close. */
  lemma {:induction false} MarketColumnsOk(ohlcv: Ohlcv, base: string)
    ensures MarketColumns(ohlcv, base).Ok? <==> AllPlaced(ohlcv, base)
    ensures BuildPricingData(ohlcv, base).Ok? <==> AllPlaced(ohlcv, base)
    decreases |ohlcv|
  {
    if ohlcv != [] {
      var init := ohlcv[..|ohlcv| - 1];
      MarketColumnsOk(init, base);
      assert AllPlaced(ohlcv, base) <==> AllPlaced(init, base) && ColumnOf(ohlcv[|ohlcv| - 1], base).Ok? by {
        if AllPlaced(init, base) && ColumnOf(ohlcv[|ohlcv| - 1], base).Ok? {
          forall i | 0 <= i < |ohlcv|
            ensures ColumnOf(ohlcv[i], base).Ok?
          {
            if i < |init| {
              assert ohlcv[i] == init[i];
            }
          }
        }
        if AllPlaced(ohlcv, base) {
          forall i | 0 <= i < |init|
            ensures ColumnOf(init[i], base).Ok?
          {
            assert ohlcv[i] == init[i];
          }
        }
      }
    }
  }

  /** Market `i` is the first, in dict order, whose iteration raises. */
  predicate FirstFailing(ohlcv: Ohlcv, base: string, i: int)
  {
    && 0 <= i < |ohlcv| && ColumnOf(ohlcv[i], base).Err?
    && forall j :: 0 <= j < i ==> ColumnOf(ohlcv[j], base).Ok?
  }

  /** A failing build raises the error of the first market that fails. */
  lemma {:induction false} MarketColumnsError(ohlcv: Ohlcv, base: string)
    requires MarketColumns(ohlcv, base).Err?
    ensures exists i :: FirstFailing(ohlcv, base, i) && MarketColumns(ohlcv, base).error == ColumnOf(ohlcv[i], base).error
    ensures BuildPricingData(ohlcv, base) == Err(MarketColumns(ohlcv, base).error)
    decreases |ohlcv|
  {
    var n := |ohlcv| - 1;
    var init := ohlcv[..n];
    assert forall j :: 0 <= j < n ==> init[j] == ohlcv[j];
    if MarketColumns(init, base).Err? {
      MarketColumnsError(init, base);
      var i :| FirstFailing(init, base, i) && MarketColumns(init, base).error == ColumnOf(init[i], base).error;
      assert FirstFailing(ohlcv, base, i);
    } else {
      MarketColumnsOk(init, base);
      assert FirstFailing(ohlcv, base, n);
    }
  }

  /** A flipped market `base/q` with a zero close makes the build raise
      ZeroDivisionError, while `q/base` with the same candles is kept. */
  lemma FlippedZeroCloseFails(base: string, q: string, cs: seq<Candle>)
    requires '/' !in base && '/' !in q && base != q && cs != [] && !NonZeroCloses(cs)
    ensures BuildPricingData([(base + "/" + q, cs)], base) == Err(ZeroDivisionError)
    ensures BuildPricingData([(q + "/" + base, cs)], base).Ok?
  {
    PlaceMarketOfPair(base, q, base);
    PlaceMarketOfPair(q, base, base);
    var flipped: Ohlcv := [(base + "/" + q, cs)];
    var kept: Ohlcv := [(q + "/" + base, cs)];
    assert flipped[..0] == [] && kept[..0] == [];
    assert ColumnOf(flipped[0], base) == Err(ZeroDivisionError);
    assert MarketColumns(flipped, base) == Err(ZeroDivisionError);
  }

  lemma PlacedNamesSnoc(ohlcv: Ohlcv, base: string)
    requires ohlcv != [] && ColumnOf(ohlcv[|ohlcv| - 1], base).Ok?
    ensures PlacedNames(ohlcv, base) ==
      PlacedNames(ohlcv[..|ohlcv| - 1], base) + {ColumnOf(ohlcv[|ohlcv| - 1], base).value.name}
  {
    var init := ohlcv[..|ohlcv| - 1];
    forall i | 0 <= i < |init|
      ensures init[i] == ohlcv[i]
    {
    }
  }

  /** The market columns carry distinct names, one per name the markets ask
      for. */
  lemma {:induction false} MarketColumnsNames(ohlcv: Ohlcv, base: string)
    requires MarketColumns(ohlcv, base).Ok?
    ensures NoDuplicates(Names(MarketColumns(ohlcv, base).value))
    ensures Elements(Names(MarketColumns(ohlcv, base).value)) == PlacedNames(ohlcv, base)
    decreases |ohlcv|
  {
    if ohlcv != [] {
      var init := ohlcv[..|ohlcv| - 1];
      var t := MarketColumns(init, base).value;
      var c := ColumnOf(ohlcv[|ohlcv| - 1], base).value;
      MarketColumnsNames(init, base);
      SetColumnCells(t, c);
      SetColumnNames(t, c);
      PlacedNamesSnoc(ohlcv, base);
      assert Elements(Names(t) + [c.name]) == Elements(Names(t)) + {c.name};
    }
  }

  /** The pricing table's names are distinct and are exactly the market
      columns plus the base asset. */
  lemma PricingDataNames(ohlcv: Ohlcv, base: string)
    requires BuildPricingData(ohlcv, base).Ok?
    ensures NoDuplicates(Names(BuildPricingData(ohlcv, base).value))
    ensures Elements(Names(BuildPricingData(ohlcv, base).value)) == PlacedNames(ohlcv, base) + {base}
  {
    var t := MarketColumns(ohlcv, base).value;
    var b := BaseColumn(t, base);
    MarketColumnsNames(ohlcv, base);
    SetColumnCells(t, b);
    SetColumnNames(t, b);
    assert Elements(Names(t) + [base]) == Elements(Names(t)) + {base};
  }

  /** A market asks for the base column only when it is `base/base`. */
  lemma OnlySelfMarketNamesBase(ohlcv: Ohlcv, base: string)
    requires base in PlacedNames(ohlcv, base)
    ensures exists i :: 0 <= i < |ohlcv| && MarketCatalog.Split(ohlcv[i].0) == [base, base]
  {
    var i :| 0 <= i < |ohlcv| && ColumnOf(ohlcv[i], base).Ok? && ColumnOf(ohlcv[i], base).value.name == base;
    assert PlaceMarket(ohlcv[i].0, base).value.name == base;
  }

  /** The base column is all ones and, unless a market already asked for
      that name, it is the last column. */
  lemma PricingDataBaseColumn(ohlcv: Ohlcv, base: string)
    requires BuildPricingData(ohlcv, base).Ok?
    ensures var t := BuildPricingData(ohlcv, base).value;
      exists i :: 0 <= i < |t| && t[i] == Column(base, Ones(RowCount(MarketColumns(ohlcv, base).value)))
    ensures base !in PlacedNames(ohlcv, base) ==>
      var t := BuildPricingData(ohlcv, base).value;
      |t| > 0 && t[|t| - 1] == Column(base, Ones(RowCount(MarketColumns(ohlcv, base).value)))
  {
    var t := MarketColumns(ohlcv, base).value;
    var b := BaseColumn(t, base);
    MarketColumnsNames(ohlcv, base);
    SetColumnCells(t, b);
    if base !in PlacedNames(ohlcv, base) {
      assert base !in Names(t) by { assert base !in Elements(Names(t)); }
      assert IndexOfName(t, base).None?;
    }
  }

  predicate AllRows(ohlcv: Ohlcv, n: nat)
  {
    forall i :: 0 <= i < |ohlcv| ==> |ohlcv[i].1| == n
  }

  predicate ColumnsOfHeight(t: Table, n: nat)
  {
    forall i :: 0 <= i < |t| ==> |t[i].cells| == n
  }

  lemma {:induction false} MarketColumnsRows(ohlcv: Ohlcv, base: string, n: nat)
    requires MarketColumns(ohlcv, base).Ok? && AllRows(ohlcv, n)
    ensures ColumnsOfHeight(MarketColumns(ohlcv, base).value, n)
    ensures ohlcv != [] ==> RowCount(MarketColumns(ohlcv, base).value) == n
    decreases |ohlcv|
  {
    if ohlcv != [] {
      var init := ohlcv[..|ohlcv| - 1];
      var t := MarketColumns(init, base).value;
      var c := ColumnOf(ohlcv[|ohlcv| - 1], base).value;
      assert AllRows(init, n) by {
        forall i | 0 <= i < |init|
          ensures |init[i].1| == n
        {
          assert init[i] == ohlcv[i];
        }
      }
      MarketColumnsRows(init, base, n);
      MarketColumnsNames(init, base);
      SetColumnCells(t, c);
    }
  }

  /** Markets with `n` candles each fill a table of `n` rows, the base
      column included. */
  lemma PricingDataRows(ohlcv: Ohlcv, base: string, n: nat)
    requires BuildPricingData(ohlcv, base).Ok? && AllRows(ohlcv, n) && ohlcv != []
    ensures ColumnsOfHeight(BuildPricingData(ohlcv, base).value, n)
  {
    var t := MarketColumns(ohlcv, base).value;
    var b := BaseColumn(t, base);
    MarketColumnsRows(ohlcv, base, n);
    MarketColumnsNames(ohlcv, base);
    SetColumnCells(t, b);
  }

  /** The columns of the markets one by one, in dict order. */
  function ColumnsInOrder(ohlcv: Ohlcv, base: string): (r: Table)
    requires AllPlaced(ohlcv, base)
  {
    seq(|ohlcv|, i requires 0 <= i < |ohlcv| => ColumnOf(ohlcv[i], base).value)
  }

  /** No two markets ask for the same column. */
  predicate DistinctPlacements(ohlcv: Ohlcv, base: string)
    requires AllPlaced(ohlcv, base)
  {
    NoDuplicates(Names(ColumnsInOrder(ohlcv, base)))
  }

  /** When the markets ask for distinct columns, the table holds one
      column per market in dict order. */
  lemma {:induction false} MarketColumnsInOrder(ohlcv: Ohlcv, base: string)
    requires AllPlaced(ohlcv, base) && DistinctPlacements(ohlcv, base)
    ensures MarketColumns(ohlcv, base) == Ok(ColumnsInOrder(ohlcv, base))
    decreases |ohlcv|
  {
    if ohlcv != [] {
      var init := ohlcv[..|ohlcv| - 1];
      var c := ColumnOf(ohlcv[|ohlcv| - 1], base).value;
      assert forall i :: 0 <= i < |init| ==> init[i] == ohlcv[i];
      assert AllPlaced(init, base);
      assert DistinctPlacements(init, base) by {
        assert Names(ColumnsInOrder(init, base)) == Names(ColumnsInOrder(ohlcv, base))[..|init|];
      }
      MarketColumnsInOrder(init, base);
      var t := ColumnsInOrder(init, base);
      var all := Names(ColumnsInOrder(ohlcv, base));
      assert c.name !in Names(t) by {
        assert c.name == all[|init|];
        assert Names(t) == all[..|init|];
      }
      assert t + [c] == ColumnsInOrder(ohlcv, base);
    }
  }

  /** With distinct market columns none of which is the base, the pricing
      table is the market columns in dict order followed by the base column
      of ones. */
  lemma PricingDataInOrder(ohlcv: Ohlcv, base: string)
    requires AllPlaced(ohlcv, base) && DistinctPlacements(ohlcv, base)
    requires base !in Names(ColumnsInOrder(ohlcv, base))
    ensures BuildPricingData(ohlcv, base) ==
      Ok(ColumnsInOrder(ohlcv, base) + [Column(base, Ones(RowCount(ColumnsInOrder(ohlcv, base))))])
  {
    MarketColumnsInOrder(ohlcv, base);
  }

  /** The column of one market `a/b` with candles. */
  function PairColumn(p: (string, string), cs: seq<Candle>, base: string): Column
    requires p.0 == base ==> NonZeroCloses(cs)
  {
    if p.0 != base then Column(p.0, Closes(cs)) else Column(p.1, Reciprocals(cs))
  }

  /** An OHLCV dict whose markets are the symbols `a/b` of the given pairs. */
  function PairMarkets(pairs: seq<(string, string)>, c: seq<seq<Candle>>): Ohlcv
    requires |pairs| == |c|
  {
    seq(|pairs|, i requires 0 <= i < |pairs| => (pairs[i].0 + "/" + pairs[i].1, c[i]))
  }

  /** Markets `a/b` with candles each feed the column `PairColumn` names. */
  lemma PairMarketsColumns(pairs: seq<(string, string)>, c: seq<seq<Candle>>, base: string)
    requires |pairs| == |c|
    requires forall i :: 0 <= i < |pairs| ==> '/' !in pairs[i].0 && '/' !in pairs[i].1 && |c[i]| > 0
    requires forall i :: 0 <= i < |pairs| && pairs[i].0 == base ==> NonZeroCloses(c[i])
    ensures AllPlaced(PairMarkets(pairs, c), base)
    ensures ColumnsInOrder(PairMarkets(pairs, c), base) ==
      seq(|pairs|, i requires 0 <= i < |pairs| => PairColumn(pairs[i], c[i], base))
  {
    var ms := PairMarkets(pairs, c);
    forall i | 0 <= i < |pairs|
      ensures ColumnOf(ms[i], base) == Ok(PairColumn(pairs[i], c[i], base))
    {
      PlaceMarketOfPair(pairs[i].0, pairs[i].1, base);
    }
  }

  // ---------------------------------------------------------------------
  // The unit-test tables, with the candles left abstract

  /** The eight BNB markets of tests/test_portfolioOpt.py. */
  function BnbPairs(): seq<(string, string)>
  {
    [("BNB", "BTC"), ("BNB", "ETH"), ("BNB", "USDT"), ("XRP", "BNB"),
     ("BNB", "PAX"), ("BNB", "TUSD"), ("BNB", "USDC"), ("BNB", "USDS")]
  }

  /** The test's candles of the seven markets quoted as `BNB/X`, which are
      flipped, have no zero close. */
  predicate BnbFlippedNonZero(c: seq<seq<Candle>>)
    requires |c| == 8
  {
    forall i :: 0 <= i < 8 && i != 3 ==> NonZeroCloses(c[i])
  }

  function BnbColumns(c: seq<seq<Candle>>): Table
    requires |c| == 8 && BnbFlippedNonZero(c)
  {
    [Column("BTC", Reciprocals(c[0])), Column("ETH", Reciprocals(c[1])), Column("USDT", Reciprocals(c[2])),
     Column("XRP", Closes(c[3])), Column("PAX", Reciprocals(c[4])), Column("TUSD", Reciprocals(c[5])),
     Column("USDC", Reciprocals(c[6])), Column("USDS", Reciprocals(c[7]))]
  }

  lemma BnbMarketColumns(c: seq<seq<Candle>>)
    requires |c| == 8 && BnbFlippedNonZero(c) && forall i :: 0 <= i < 8 ==> |c[i]| > 0
    ensures AllPlaced(PairMarkets(BnbPairs(), c), "BNB")
    ensures ColumnsInOrder(PairMarkets(BnbPairs(), c), "BNB") == BnbColumns(c)
  {
    PairMarketsColumns(BnbPairs(), c, "BNB");
  }

  /** The column names of the BNB markets. */
  function BnbNames(): seq<string>
  {
    ["BTC", "ETH", "USDT", "XRP", "PAX", "TUSD", "USDC", "USDS"]
  }

  lemma BnbColumnNames(c: seq<seq<Candle>>)
    requires |c| == 8 && BnbFlippedNonZero(c)
    ensures Names(BnbColumns(c)) == BnbNames()
  {
  }

  /** The nine names, base last, are distinct. */
  lemma BnbNamesDistinct()
    ensures NoDuplicates(BnbNames() + ["BNB"])
    ensures NoDuplicates(BnbNames()) && "BNB" !in BnbNames()
  {
    var l := BnbNames() + ["BNB"];
    assert Ends(l) == [('B', 'C'), ('E', 'H'), ('U', 'T'), ('X', 'P'), ('P', 'X'), ('T', 'D'),
                       ('U', 'C'), ('U', 'S'), ('B', 'B')];
    DistinctEnds(l);
    NoDuplicatesSnoc(BnbNames(), "BNB");
  }

  lemma BnbTable(c: seq<seq<Candle>>)
    requires |c| == 8 && BnbFlippedNonZero(c) && forall i :: 0 <= i < 8 ==> |c[i]| == 5
    ensures BuildPricingData(PairMarkets(BnbPairs(), c), "BNB") == Ok(BnbColumns(c) + [Column("BNB", Ones(5))])
  {
    var ms := PairMarkets(BnbPairs(), c);
    BnbMarketColumns(c);
    BnbColumnNames(c);
    BnbNamesDistinct();
    PricingDataInOrder(ms, "BNB");
  }

  /** The BNB table's names, heights and columns. */
  lemma BnbColumnsShape(c: seq<seq<Candle>>, t: Table)
    requires |c| == 8 && BnbFlippedNonZero(c) && forall i :: 0 <= i < 8 ==> |c[i]| == 5
    requires t == BnbColumns(c) + [Column("BNB", Ones(5))]
    ensures Names(t) == ["BTC", "ETH", "USDT", "XRP", "PAX", "TUSD", "USDC", "USDS", "BNB"]
    ensures NoDuplicates(Names(t)) && |t| == 9 && ColumnsOfHeight(t, 5)
    ensures t[0].cells == Reciprocals(c[0]) && t[3].cells == Closes(c[3]) && t[8] == Column("BNB", Ones(5))
  {
    BnbColumnNames(c);
    BnbNamesDistinct();
    assert Names(t) == BnbNames() + ["BNB"];
  }

  /** The BNB test: nine distinct columns BTC, ETH, USDT, XRP, PAX, TUSD,
      USDC, USDS, BNB of five rows; only XRP, quoted in BNB, keeps its
      closes, the others are flipped; BNB is the column of ones. */
  lemma BnbPricingData(c: seq<seq<Candle>>)
    requires |c| == 8 && BnbFlippedNonZero(c) && forall i :: 0 <= i < 8 ==> |c[i]| == 5
    ensures BuildPricingData(PairMarkets(BnbPairs(), c), "BNB").Ok?
    ensures var t := BuildPricingData(PairMarkets(BnbPairs(), c), "BNB").value;
      && Names(t) == ["BTC", "ETH", "USDT", "XRP", "PAX", "TUSD", "USDC", "USDS", "BNB"]
      && NoDuplicates(Names(t)) && |t| == 9 && ColumnsOfHeight(t, 5)
      && t[0].cells == Reciprocals(c[0]) && t[3].cells == Closes(c[3])
      && t[8] == Column("BNB", Ones(5))
  {
    BnbTable(c);
    BnbColumnsShape(c, BuildPricingData(PairMarkets(BnbPairs(), c), "BNB").value);
  }

  /** The three USDT markets of tests/test_portfolioOpt.py. */
  function UsdtPairs(): seq<(string, string)>
  {
    [("BTC", "USDT"), ("ETH", "USDT"), ("BNB", "USDT")]
  }

  function UsdtColumns(c: seq<seq<Candle>>): Table
    requires |c| == 3
  {
    [Column("BTC", Closes(c[0])), Column("ETH", Closes(c[1])), Column("BNB", Closes(c[2]))]
  }

  /** The four names, base last, are distinct. */
  lemma UsdtNamesDistinct()
    ensures NoDuplicates(["BTC", "ETH", "BNB"] + ["USDT"])
    ensures NoDuplicates(["BTC", "ETH", "BNB"]) && "USDT" !in ["BTC", "ETH", "BNB"]
  {
    var l := ["BTC", "ETH", "BNB"] + ["USDT"];
    assert Ends(l) == [('B', 'C'), ('E', 'H'), ('B', 'B'), ('U', 'T')];
    DistinctEnds(l);
    NoDuplicatesSnoc(["BTC", "ETH", "BNB"], "USDT");
  }

  lemma UsdtTable(c: seq<seq<Candle>>)
    requires |c| == 3 && forall i :: 0 <= i < 3 ==> |c[i]| == 3
    ensures BuildPricingData(PairMarkets(UsdtPairs(), c), "USDT") == Ok(UsdtColumns(c) + [Column("USDT", Ones(3))])
  {
    var ms := PairMarkets(UsdtPairs(), c);
    PairMarketsColumns(UsdtPairs(), c, "USDT");
    assert ColumnsInOrder(ms, "USDT") == UsdtColumns(c);
    assert Names(UsdtColumns(c)) == ["BTC", "ETH", "BNB"];
    UsdtNamesDistinct();
    PricingDataInOrder(ms, "USDT");
  }

  /** The USDT table's names, heights and columns. */
  lemma UsdtColumnsShape(c: seq<seq<Candle>>, t: Table)
    requires |c| == 3 && forall i :: 0 <= i < 3 ==> |c[i]| == 3
    requires t == UsdtColumns(c) + [Column("USDT", Ones(3))]
    ensures Names(t) == ["BTC", "ETH", "BNB", "USDT"] && NoDuplicates(Names(t)) && |t| == 4
    ensures ColumnsOfHeight(t, 3)
    ensures (forall i :: 0 <= i < 3 ==> t[i].cells == Closes(c[i])) && t[3] == Column("USDT", Ones(3))
  {
    UsdtNamesDistinct();
    assert Names(t) == ["BTC", "ETH", "BNB"] + ["USDT"];
  }

  /** The USDT test: four distinct columns BTC, ETH, BNB, USDT of three
      rows, none flipped. */
  lemma UsdtPricingData(c: seq<seq<Candle>>)
    requires |c| == 3 && forall i :: 0 <= i < 3 ==> |c[i]| == 3
    ensures BuildPricingData(PairMarkets(UsdtPairs(), c), "USDT").Ok?
    ensures var t := BuildPricingData(PairMarkets(UsdtPairs(), c), "USDT").value;
      && Names(t) == ["BTC", "ETH", "BNB", "USDT"] && NoDuplicates(Names(t)) && |t| == 4
      && ColumnsOfHeight(t, 3)
      && (forall i :: 0 <= i < 3 ==> t[i].cells == Closes(c[i]))
      && t[3] == Column("USDT", Ones(3))
  {
    UsdtTable(c);
    UsdtColumnsShape(c, BuildPricingData(PairMarkets(UsdtPairs(), c), "USDT").value);
  }

  // ---------------------------------------------------------------------
  // generate_report

  /** Optimizer weights per asset, in dict order. */
  type Weights = seq<(string, real)>

  /** `dict(filter(lambda w: w[1] > 0.0, weights.items()))`. */
  function NonZeroWeights(w: Weights): (r: Weights)
    ensures forall x :: x in r <==> x in w && x.1 > 0.0
    ensures |r| <= |w|
  {
    if w == [] then []
    else if w[0].1 > 0.0 then [w[0]] + NonZeroWeights(w[1..])
    else NonZeroWeights(w[1..])
  }

  /** `a` is `b` with some entries dropped, the rest in their order. */
  predicate IsSubsequence<T(==)>(a: seq<T>, b: seq<T>)
    decreases |b|
  {
    if a == [] then true
    else if b == [] then false
    else if a[0] == b[0] then IsSubsequence(a[1..], b[1..])
    else IsSubsequence(a, b[1..])
  }

  /** The filter keeps the dict order of the weights it keeps. */
  lemma {:induction false} NonZeroWeightsInOrder(w: Weights)
    ensures IsSubsequence(NonZeroWeights(w), w)
    decreases |w|
  {
    if w != [] {
      NonZeroWeightsInOrder(w[1..]);
      if w[0].1 <= 0.0 {
        var r := NonZeroWeights(w);
        if r != [] {
          assert r[0] in w[1..];
          assert r[0] != w[0];
        }
      }
    }
  }

  /** Filtering twice filters nothing more. */
  lemma {:induction false} NonZeroWeightsIdempotent(w: Weights)
    ensures NonZeroWeights(NonZeroWeights(w)) == NonZeroWeights(w)
    decreases |w|
  {
    if w != [] {
      NonZeroWeightsIdempotent(w[1..]);
      if w[0].1 > 0.0 {
        assert NonZeroWeights(w)[1..] == NonZeroWeights(w[1..]);
      }
    }
  }

  /** What `ef.portfolio_performance()` reports. */
  datatype Performance = Performance(expectedReturn: real, volatility: real, sharpe: real)

  /** What the optimizer yields for a pricing table: the analysed index
      range, the cleaned weights and their performance. */
  datatype Analysis = Analysis(rangeBegin: string, rangeEnd: string, cleanedWeights: Weights, performance: Performance)

  /** What `forward_looking_return` yields: the range it used and the
      weighted return. */
  datatype ForwardReturn = ForwardReturn(rangeBegin: string, rangeEnd: string, weightedReturn: real)

  /** The five report lines, their numbers as percentages where the format
      shows a percent sign. */
  datatype ReportLine =
    | Period(begin: string, end: string)
    | Settings(bounds: (real, real), base: string, frequency: int)
    | Targets(targetReturn: Option<real>, targetRisk: Option<real>)
    | Returns(portfolioPct: real, expectedPct: real)
    | Risk(volatilityPct: real, sharpe: real)

  datatype Report = Report(weights: Weights, lines: seq<ReportLine>)

  /** `generate_report`: build the pricing table, optimise it, evaluate the
      positive weights forward, and return the cleaned weights (zero
      weights included) with five lines. The optimizer and the forward
      evaluation are parameters. */
  function GenerateReport(ohlcv: Ohlcv, bounds: (real, real), base: string, frequency: int,
                          targetReturn: Option<real>, targetRisk: Option<real>,
                          optimize: (Table, (real, real), int, Option<real>, Option<real>) -> Analysis,
                          forward: (Table, string, string, Weights) -> ForwardReturn): (r: Result<Report>)
    ensures r.Ok? <==> BuildPricingData(ohlcv, base).Ok?
    ensures r.Err? ==> r.error == BuildPricingData(ohlcv, base).error
    ensures r.Ok? ==>
      var t := BuildPricingData(ohlcv, base).value;
      var a := optimize(t, bounds, frequency, targetReturn, targetRisk);
      var f := forward(t, a.rangeBegin, a.rangeEnd, NonZeroWeights(a.cleanedWeights));
      && r.value.weights == a.cleanedWeights
      && r.value.lines == [Period(f.rangeBegin, f.rangeEnd), Settings(bounds, base, frequency),
                           Targets(targetReturn, targetRisk),
                           Returns(100.0 * f.weightedReturn, 100.0 * a.performance.expectedReturn),
                           Risk(100.0 * a.performance.volatility, a.performance.sharpe)]
  {
    match BuildPricingData(ohlcv, base)
    case Err(e) => Err(e)
    case Ok(t) =>
      var a := optimize(t, bounds, frequency, targetReturn, targetRisk);
      var f := forward(t, a.rangeBegin, a.rangeEnd, NonZeroWeights(a.cleanedWeights));
      Ok(Report(a.cleanedWeights,
        [Period(f.rangeBegin, f.rangeEnd), Settings(bounds, base, frequency),
         Targets(targetReturn, targetRisk),
         Returns(100.0 * f.weightedReturn, 100.0 * a.performance.expectedReturn),
         Risk(100.0 * a.performance.volatility, a.performance.sharpe)]))
  }

  /** The report always has five lines, and the forward evaluation only ever
      sees strictly positive weights. */
  lemma ReportShape(ohlcv: Ohlcv, bounds: (real, real), base: string, frequency: int,
                    targetReturn: Option<real>, targetRisk: Option<real>,
                    optimize: (Table, (real, real), int, Option<real>, Option<real>) -> Analysis,
                    forward: (Table, string, string, Weights) -> ForwardReturn)
    requires AllPlaced(ohlcv, base)
    ensures BuildPricingData(ohlcv, base).Ok?
    ensures GenerateReport(ohlcv, bounds, base, frequency, targetReturn, targetRisk, optimize, forward).Ok?
    ensures |GenerateReport(ohlcv, bounds, base, frequency, targetReturn, targetRisk, optimize, forward).value.lines| == 5
    ensures var t := BuildPricingData(ohlcv, base).value;
      var a := optimize(t, bounds, frequency, targetReturn, targetRisk);
      forall x :: x in NonZeroWeights(a.cleanedWeights) ==> x.1 > 0.0
  {
    MarketColumnsOk(ohlcv, base);
  }
}
