# Rebalancer core, modelled in Dafny

This project models the computational core of the *rebalancer* trading bot
and proves properties of the model. The core consists of:

- the market catalog (`AssetList` / `StaticAssetList`): it validates a
  whitelist against the exchange's markets and derives the markets that
  price a portfolio over a base asset;
- the exchange-side bookkeeping of the REST client: balance filtering,
  order history, the order lookup table and ticker mid/spread values;
- the quote maker of `Trader`;
- truncation to a decimal precision (`rounded_to_precision`);
- the pricing-table columns, the settings converters and the report lines
  of the two portfolio optimizer front ends;
- the rolling windows of `Orderbook` and `Signal`;
- the runner's market selections, update clock, volume-weighted index and
  balance conversion (`payload/runner.py`, `yat/scindex.py`);
- the depth map of the web-socket `Streamer` and the query-parameter
  preparation of `_geturl_json`.

Each source area is one module:

| file | module | source |
|---|---|---|
| Common.dfy | `Common` | shared: Option/Result, Python indexing, sums, means, decimal numerals |
| Precision.dfy | `Precision` | core/core.py, yat/calcus.py |
| MarketCatalog.dfy | `MarketCatalog` | yat/assetlist/AssetList.py, yat/assetlist/StaticAssetList.py |
| RestClient.dfy | `RestClient` | binance/restclient.py |
| Trader.dfy | `Trader` | payload/trader.py |
| Parsing.dfy | `Parsing` | the `as_*` converters of payload/portfolioOpt.py and payload/portfolio_opt.py |
| PortfolioOpt.dfy | `PortfolioOpt` | payload/portfolioOpt.py |
| LegacyPortfolioOpt.dfy | `LegacyPortfolioOpt` | payload/portfolio_opt.py |
| Orderbook.dfy | `Orderbook` | payload/orderbook.py |
| Signal.dfy | `Signal` | payload/signal.py |
| Runner.dfy | `Runner` | payload/runner.py, yat/scindex.py |
| Streamer.dfy | `Streamer` | binance/wsclient.py |

## How the code is modelled

- **Objects whose methods update fields are classes.** These are
  `StaticAssetList`, `RestClient`, `Trader`, `Orderbook`, `Signal`,
  `Runner`, `Streamer`, and the `query_params` dict as `QueryParams`.
  - Each state-changing method is specified by a function of the old state:
    `AfterUpdateOb`, `AfterSignal`, `CalcTickersRun`, `AfterUpdate`,
    `Prepare`, and so on.
  - Its `ensures` says the new state is what that function gives.
  - The properties are proved about those functions.
- **Each loop of the source is a Dafny loop with invariants.** This covers:
  - the build loops of `_build_portfolio_base_markets`;
  - `_validate_assetlist`;
  - `calc_tickers` and the two loops of `_calculate_index`;
  - the depth-map loops and the `None`-stripping loop of `_geturl_json`.
- **Python exceptions become error results.** `Result`/`Option` values
  carry `KeyError`, `IndexError`, `ValueError`, `ZeroDivisionError` or
  `TypeError`, at the point where the source raises.
  - For the state-changing methods, the state at the moment of the
    exception is kept, as Python keeps it.
- **Exchange data are inputs.** Market tables, ticker maps, candles and
  snapshots are `seq`/`map` values.
  - Where the source calls the clock, randomness, an HMAC, `log` or an
    exponential average, the value is a parameter of the model.
- **Numbers are `real`.**
  - Python dicts whose iteration order matters are sequences of pairs.
  - Python's negative indexes and slices are `PyAt`/`PySuffix`.
  - `months_from_date` computes `math.floor(new_month / 12)` and
    `new_month % 12`. For the positive divisor 12 these agree with
    Dafny's `/` and `%` on integers.

Where the code and its documentation disagree, the model follows the code.

1. `__update_order_book` loads the snapshot's asks into the bids map
   (binance/wsclient.py:471-472).
2. `months_from_date` does not move by exactly the given number of months
   when the new month is a multiple of 12.
3. `rounded_to_precision` raises for every precision `<= 0`.

Each of these is also listed under Findings, with a corrected counterpart.

## Model

| member | source | states |
|---|---|---|
| Common.PyAt | payload/orderbook.py:107 | `s[i]` is defined exactly for `-len(s) <= i < len(s)`; a negative index counts from the end |
| Common.PySuffix | payload/orderbook.py:86 | `s[k:]` with Python's clamping and negative starts: the exact bounds and length of the slice |
| Common.Mean | payload/orderbook.py:86 | `np.mean` has a value exactly for a non-empty list (NaN, modelled as none, for the empty one) |
| Common.MeanOfConstant | payload/orderbook.py:86 | the mean of a list of equal values is that value |
| Common.SumAppend | yat/scindex.py:6-7 | sums over concatenated lists add |
| Common.ListOf | yat/assetlist/AssetList.py:98 | `list(some_set)` holds every element of the set once and nothing else |
| Common.NatToStringRoundTrip | payload/trader.py:39 | the `%d` rendering of a natural number reads back as that number |
| Common.NatToStringInjective | payload/trader.py:39 | distinct numbers get distinct `%d` renderings |
| Precision.RoundedToPrecision | core/core.py:18-22 | succeeds exactly for a positive precision, with `trunc(x*10^p)/10^p`; every `p <= 0` is a ValueError |
| Precision.TruncTo | yat/calcus.py:12 | the positive-precision branch lands on the grid: the result times 10^p is the integer `trunc(x*10^p)` |
| Precision.PowerGrid | yat/calcus.py:12 | truncating at scale 10^p lands on the grid of multiples of 10^-p |
| Precision.OnGrid | yat/calcus.py:12 | for `p > 0` the result times 10^p is the integer `trunc(x*10^p)` |
| Precision.TowardZero | core/core.py:20 | for `p > 0` the result lies between 0 and x and within 10^-p of x |
| Precision.Idempotent | yat/calcus.py:12 | truncating a truncated value at the same precision changes nothing |
| Precision.Monotone | core/core.py:20 | `x <= y` implies `result(x) <= result(y)` for a fixed `p > 0` |
| Precision.DocExamples | core/core.py:10-15 | the three docstring examples, which the unit test repeats: 401.4600001, 401.46 (truncated, not rounded), 401.012 |
| Precision.TruncBounds | core/core.py:20 | `math.trunc` rounds toward zero, staying within 1 of x |
| Precision.TruncMonotone | core/core.py:20 | `math.trunc` is monotone |
| Precision.DefaultPrecisionFails | yat/calcus.py:13-14 | as written, the default precision 0 fails for every number |
| Precision.RoundedToPrecisionIntended | core/core.py:21-22 | the corrected function agrees with the written one for `p > 0` |
| Precision.IntendedTruncates | core/core.py:21-22 | the corrected function always yields a value truncated toward zero; for `p <= 0` it is the integer part |
| MarketCatalog.Split | yat/assetlist/AssetList.py:86 | `str.split('/')` always yields at least one piece |
| MarketCatalog.JoinSplit | yat/assetlist/AssetList.py:86 | joining the pieces with '/' gives back the symbol |
| MarketCatalog.SplitPiecesHaveNoSlash | yat/assetlist/AssetList.py:86 | no piece of a split contains '/' |
| MarketCatalog.SplitPair | yat/assetlist/AssetList.py:86 | "a/b" with slash-free sides splits into exactly `[a, b]` |
| MarketCatalog.SplitNoSlash | yat/assetlist/AssetList.py:86 | a string without '/' splits into itself |
| MarketCatalog.SidesMembers | yat/assetlist/AssetList.py:86 | an asset is a market side exactly when it is a piece of some market symbol |
| MarketCatalog.ValidateAssetList | yat/assetlist/AssetList.py:76-98 | keeps an asset iff it is listed, not blacklisted and a '/'-side of some market symbol; no duplicates |
| MarketCatalog.ValidateIdempotent | yat/assetlist/AssetList.py:86-98 | validating an already validated list yields the same set |
| MarketCatalog.RemoveFirstMultiset | yat/assetlist/AssetList.py:116-120 | `list.remove(x)` drops exactly one occurrence of x and nothing else |
| MarketCatalog.RemoveFirst | yat/assetlist/AssetList.py:116-120 | `list.remove` shortens the list by at most one entry |
| MarketCatalog.DirectStep | yat/assetlist/AssetList.py:113-120 | one market removes at most one whitelist entry and only adds to the resolved markets and assets |
| MarketCatalog.DirectPass | yat/assetlist/AssetList.py:110-120 | each market of the first loop removes at most one whitelist entry and adds at most one market |
| MarketCatalog.BridgeMarkets | yat/assetlist/AssetList.py:121-128 | every bridge market is a listed `a/BTC` or `BTC/a` for an asset still in the whitelist |
| MarketCatalog.LinkMarket | yat/assetlist/AssetList.py:129-132 | at most one listed market, `base/BTC` or `BTC/base`, and none exactly when neither is listed |
| MarketCatalog.BaseMarkets | yat/assetlist/AssetList.py:133 | the base asset is always among the returned assets |
| MarketCatalog.DirectLoop | yat/assetlist/AssetList.py:110-120 | the first loop over the markets in dict order computes the direct pass |
| MarketCatalog.BridgeLoop | yat/assetlist/AssetList.py:121-128 | the second loop adds each unresolved asset's `a/BTC`, else `BTC/a`, market |
| MarketCatalog.BuildPortfolioBaseMarkets | yat/assetlist/AssetList.py:100-135 | the method's markets, assets and leftover whitelist are those of `BaseMarkets` |
| MarketCatalog.DirectRestSub | yat/assetlist/AssetList.py:116-120 | the whitelist list object only shrinks during the first loop |
| MarketCatalog.DirectCovered | yat/assetlist/AssetList.py:112-120 | every whitelisted asset is either still listed or resolved after the first loop |
| MarketCatalog.DirectPaSound | yat/assetlist/AssetList.py:113-120 | a directly resolved asset is whitelisted and has a market with the base |
| MarketCatalog.DirectPaComplete | yat/assetlist/AssetList.py:113-120 | a whitelisted asset with a market with the base is resolved directly |
| MarketCatalog.DirectPbmSound | yat/assetlist/AssetList.py:113-120 | every market of the first loop joins a whitelisted asset and the base |
| MarketCatalog.DirectPaCovered | yat/assetlist/AssetList.py:113-120 | every directly resolved asset is named by a market of the first loop |
| MarketCatalog.StepRest | yat/assetlist/AssetList.py:113-120 | one step removes from a duplicate-free list exactly the asset the market joins to the base |
| MarketCatalog.DirectPassRemoves | yat/assetlist/AssetList.py:107-120 | with a duplicate-free whitelist, exactly the assets without a direct market stay listed |
| MarketCatalog.MarketKinds | yat/assetlist/AssetList.py:112-132 | every returned market is a direct market, a BTC bridge market of a whitelisted asset, or the BTC/base link |
| MarketCatalog.AssetsFromWhitelist | yat/assetlist/AssetList.py:113-128 | every returned non-base asset is whitelisted and named by some returned market |
| MarketCatalog.ResolvedIff | yat/assetlist/AssetList.py:112-133 | a whitelisted asset is returned iff it is the base, has a direct market or has a BTC bridge; others are dropped silently |
| MarketCatalog.LinkOnlyWhenBridged | yat/assetlist/AssetList.py:121-132 | with no unresolved asset only direct markets are returned; with one, the listed BTC/base link is added |
| MarketCatalog.RemainingWhitelist | yat/assetlist/AssetList.py:107-128 | the caller's whitelist list is edited in place: what stays is part of it, exactly the assets without a direct market |
| MarketCatalog.StrList.constructor | yat/assetlist/AssetList.py:107 | a list object holding the given items, shared by reference |
| MarketCatalog.StaticAssetList.constructor | yat/assetlist/StaticAssetList.py:12-13 | the catalog holds the given markets, whitelist object, blacklist and bounds, and an empty portfolio |
| MarketCatalog.StaticAssetList.RefreshAssetList | yat/assetlist/StaticAssetList.py:21-26 | the whitelist becomes a new list holding exactly the validated assets; the portfolio and the old list object are untouched |
| MarketCatalog.StaticAssetList.BuildPortfolioAssetsMarkets | yat/assetlist/StaticAssetList.py:28-40 | returns exactly the built market set; strips the old list in place; the whitelist becomes the built assets; every portfolio key gets the weight bounds; no blacklist filtering |
| MarketCatalog.TestBuildScenario | tests/test_assetlist.py:11-26 | the test exchange and whitelist with base USDT give the four markets and five assets, and leave USDT and AE in the list |
| MarketCatalog.TestDirectPass | tests/test_assetlist.py:11-26 | the direct pass of the test scenario resolves ETH, BTC and BNB in dict order |
| MarketCatalog.TestBridges | tests/test_assetlist.py:11-15 | in the test markets USDT bridges through BTC/USDT and AE through AE/BTC, and BTC/USDT is the link |
| MarketCatalog.TestSymbols | tests/test_assetlist.py:11-15 | the symbols of the test exchange |
| MarketCatalog.TestRemoveEth | tests/test_assetlist.py:19-24 | removing ETH from the test whitelist keeps the other four in order |
| MarketCatalog.TestStepEth | tests/test_assetlist.py:12 | the ETH/USDT market resolves ETH |
| MarketCatalog.TestStepBtc | tests/test_assetlist.py:13 | the BTC/USDT market resolves BTC |
| MarketCatalog.TestStepBnb | tests/test_assetlist.py:14 | the BNB/USDT market resolves BNB |
| MarketCatalog.SidesOfSymbol | yat/assetlist/AssetList.py:86 | both sides of a listed "a/b" symbol are market sides |
| MarketCatalog.BuildScenario | tests/test_assetlist.py:42-53 | the build test: four markets, five whitelisted assets, blacklist `['USDSB']`, every portfolio entry `(0.05, 0.95)` |
| RestClient.FilterNotNull | binance/restclient.py:100-107 | every kept entry has `all = free + locked` and a positive free or locked amount |
| RestClient.FilterNotNullKeys | binance/restclient.py:102-103 | an asset is kept iff some row for it has `free > 0` or `locked > 0` |
| RestClient.FilterNotNullValues | binance/restclient.py:104-106 | a kept entry copies free and locked of the asset's last positive row unchanged, with `all = free + locked` |
| RestClient.WithLookup | binance/restclient.py:86-93 | `lookup[trader][order] = ex_id`, creating the inner map if missing; every other entry is unchanged |
| RestClient.TickerStatsOf | binance/restclient.py:190-192 | fails with ZeroDivisionError exactly when the truncated mid is zero |
| RestClient.TickerStatsBounds | binance/restclient.py:190-197 | mid = trunc8((bid+ask)/2), spread = trunc8(ask-bid), spread_p = trunc4(100*spread/mid); each is within one grid step; a non-crossed book has spread >= 0 |
| RestClient.CalcTickersFrame | binance/restclient.py:182-196 | a run keeps the table's keys and exchange data and touches no unselected symbol |
| RestClient.CalcStep | binance/restclient.py:187-196 | one symbol fails with a KeyError exactly when it is missing and with ZeroDivisionError exactly when its mid is zero; a failing symbol leaves the table unchanged |
| RestClient.CalcTickersRun | binance/restclient.py:186-197 | a run stops only on a KeyError or a ZeroDivisionError, and an empty selection raises nothing |
| RestClient.CalcTickersOk | binance/restclient.py:186-197 | a run raises nothing iff every selected symbol is in the table with a non-zero truncated mid |
| RestClient.CalcTickersValues | binance/restclient.py:186-197 | after a run that raises nothing, every selected ticker is its original record with the derived values of its own ask and bid |
| RestClient.CalcTickersSuccess | binance/restclient.py:186-197 | a run succeeds iff every selected symbol is present with a non-zero mid; then every selected ticker carries its values |
| RestClient.CalcTickersStops | binance/restclient.py:186-197 | after the first exception nothing else changes |
| RestClient.HistoryIdsIncreasing | binance/restclient.py:80-82 | the history's `exid`s are strictly increasing |
| RestClient.RestClient.constructor | binance/restclient.py:32-44 | empty tables, order index 0, empty history |
| RestClient.RestClient.AddOrderToHistory | binance/restclient.py:78-84 | the index goes up by exactly 1 and one record with that index is appended; all else stays, and the history stays numbered 1, 2, 3, ... |
| RestClient.RestClient.AddOrderToLookup | binance/restclient.py:86-93 | the lookup table becomes `WithLookup` of the old one; nothing else changes |
| RestClient.RestClient.FetchBalances | binance/restclient.py:109-121 | the balances become the filtered response on success, empty on failure |
| RestClient.RestClient.GetAllTickers | binance/restclient.py:203-212 | the table is replaced wholesale by the response; a failing call exits |
| RestClient.RestClient.CalcTickers | binance/restclient.py:175-197 | processes the given list, or every key once, stopping at the first exception; the table ends as `CalcTickersRun` says |
| Trader.OrderIdDecodes | payload/trader.py:39 | an order id is the trader id followed by the decimal sequence number, which reads back |
| Trader.OrderId | payload/trader.py:39 | the id starts with the trader id and continues with decimal digits only |
| Trader.OrderIdInjective | payload/trader.py:38-39 | one trader's ids for different sequence numbers differ |
| Trader.Trader.constructor | payload/trader.py:13-26 | a new trader has sequence 0 and an empty quote collector |
| Trader.Trader.MakeAddQuote | payload/trader.py:31-45 | every call advances the sequence by 1; a quantity at or above the minimum gives the 'add' quote under the new id whatever the maximum; a smaller one the empty quote |
| Trader.IssuedIdsDistinct | payload/trader.py:38-39 | no two calls on one trader yield the same order id |
| Parsing.ParseNat | payload/portfolioOpt.py:48 | a string reads as a natural number exactly when it is a non-empty run of digits |
| Parsing.ParseInt | payload/portfolioOpt.py:48 | an unsigned numeral reads as its value |
| Parsing.IntRoundTrip | payload/portfolio_opt.py:52 | `int(str(n)) == n` |
| Parsing.ParseUnsignedDecimal | payload/portfolioOpt.py:40 | an unsigned numeral parses only when non-empty, to a non-negative number |
| Parsing.IndexOfDot | payload/portfolioOpt.py:40 | finds the first decimal point, or reports that there is none |
| Parsing.ParseDecimal | payload/portfolioOpt.py:40 | only a non-empty string parses; the sign of the number follows a leading '-' |
| Parsing.NoDotInDigits | payload/portfolioOpt.py:40 | a run of digits has no decimal point |
| Parsing.AsInt | payload/portfolioOpt.py:44-50 | `None` stays `None`; otherwise `int(s)`, or `None` where `int` raises ValueError |
| Parsing.AsPct | payload/portfolio_opt.py:40-46 | `None` stays `None`; otherwise the parsed number divided by 100, or `None` where `float` raises |
| Parsing.AsIntRoundTrip | payload/portfolio_opt.py:48-54 | `as_int` of a rendered integer is that integer |
| Parsing.AsPctOfWhole | payload/portfolioOpt.py:36-42 | `as_pct("n")` is n/100 |
| Parsing.MonthField | payload/portfolio_opt.py:36 | a `%m` field is a month 1..12 |
| Parsing.DayField | payload/portfolio_opt.py:36 | a `%d` field is a day 1..31 |
| Parsing.ParseDate | payload/portfolioOpt.py:32 | the result of `strptime(s, '%Y-%m-%d')` is a real date |
| Parsing.AsDate | payload/portfolio_opt.py:31-38 | `None` stays `None`; a parsed date is a real date |
| Parsing.PadDigits | payload/portfolio_opt.py:36 | a zero-padded numeral has exactly the given width and only digits |
| Parsing.PadDigitsValue | payload/portfolio_opt.py:36 | a zero-padded numeral reads back as its number |
| Parsing.FormatDate | payload/portfolioOpt.py:32 | the ISO form of a valid date has ten characters with '-' at positions 4 and 7 |
| Parsing.FormatDateShape | payload/portfolioOpt.py:32 | the ISO form of a date is `YYYY-MM-DD` |
| Parsing.YearField | payload/portfolioOpt.py:32 | the four year digits read back as the year |
| Parsing.TwoDigits | payload/portfolioOpt.py:32 | the two-digit fields read back |
| Parsing.MonthFieldOf | payload/portfolioOpt.py:32 | a two-digit month reads back as `%m` |
| Parsing.DayFieldOf | payload/portfolioOpt.py:32 | a two-digit day reads back as `%d` |
| Parsing.DateRoundTrip | payload/portfolioOpt.py:28-34 | `as_days` reads every date back from its ISO form |
| PortfolioOpt.Closes | payload/portfolioOpt.py:104 | the column holds each candle's close in order |
| PortfolioOpt.Recip | payload/portfolioOpt.py:107 | `1/x` of a non-zero close is its reciprocal: the product is 1 |
| PortfolioOpt.Reciprocals | payload/portfolioOpt.py:107 | for closes none of which is 0, the flipped column holds the reciprocal of each close in order |
| PortfolioOpt.Ones | payload/portfolioOpt.py:110 | the base column has every entry 1 |
| PortfolioOpt.PlaceMarket | payload/portfolioOpt.py:102-107 | a symbol unpacks exactly when it has two '/'-pieces; it names the base column only for `base/base` |
| PortfolioOpt.PlaceMarketOfPair | payload/portfolioOpt.py:102-107 | market A/B feeds column A with its closes unless A is the base, then column B with reciprocals |
| PortfolioOpt.ColumnOf | payload/portfolioOpt.py:95-107 | one market yields its column exactly when it has candles, unpacks, and, if flipped, has no zero close; otherwise IndexError, ValueError or ZeroDivisionError in that order; the column has the closes or their reciprocals |
| PortfolioOpt.IndexOfName | payload/portfolioOpt.py:104 | the position of a named column, or none exactly when the name is absent |
| PortfolioOpt.SetColumnNames | payload/portfolioOpt.py:104-110 | `df[name] = ...` keeps the names if present, otherwise appends the name |
| PortfolioOpt.SetColumn | payload/portfolioOpt.py:104-110 | `df[name] = ...` adds at most one column |
| PortfolioOpt.SetColumnCells | payload/portfolioOpt.py:104-110 | the assigned column holds the new cells and sits where the old one was or last; others unchanged; names stay distinct |
| PortfolioOpt.MarketColumnsOk | payload/portfolioOpt.py:95-107 | the build fails exactly when some market has no candles, a symbol that is not `A/B`, or a zero close in a flipped market |
| PortfolioOpt.MarketColumns | payload/portfolioOpt.py:95-107 | a failure is an IndexError, ValueError or ZeroDivisionError; on success there are at most as many columns as markets |
| PortfolioOpt.BuildPricingData | payload/portfolioOpt.py:94-111 | succeeds exactly when the market loop does; then at most one column more than there are markets |
| PortfolioOpt.MarketColumnsError | payload/portfolioOpt.py:95-107 | a failing build raises the error of the first market, in dict order, whose iteration raises |
| PortfolioOpt.FlippedZeroCloseFails | payload/portfolioOpt.py:102-107 | a zero close in a market `base/q` raises ZeroDivisionError, while `q/base` with the same candles builds |
| PortfolioOpt.MarketColumnsNames | payload/portfolioOpt.py:95-107 | the market columns have distinct names, exactly the columns the markets ask for |
| PortfolioOpt.PricingDataNames | payload/portfolioOpt.py:94-111 | the table's names are distinct and are the market columns plus the base |
| PortfolioOpt.OnlySelfMarketNamesBase | payload/portfolioOpt.py:103-107 | a market asks for the base column only when it is `base/base` |
| PortfolioOpt.PricingDataBaseColumn | payload/portfolioOpt.py:110 | the base column is all ones and, unless a market already named it, it is last |
| PortfolioOpt.MarketColumnsRows | payload/portfolioOpt.py:95-107 | markets with n candles each give columns of n rows |
| PortfolioOpt.PricingDataRows | payload/portfolioOpt.py:94-111 | with n aligned candles per market every column, the base included, has n rows |
| PortfolioOpt.MarketColumnsInOrder | payload/portfolioOpt.py:95-107 | with distinct column names the columns follow the markets' dict order |
| PortfolioOpt.PricingDataInOrder | payload/portfolioOpt.py:94-111 | with distinct market columns other than the base, the table is the market columns in order, then the base column of ones |
| PortfolioOpt.PairMarketsColumns | payload/portfolioOpt.py:102-107 | markets `a/b` with candles feed the columns their sides name, in order |
| PortfolioOpt.BnbMarketColumns | tests/test_portfolioOpt.py:16-56 | the eight BNB markets feed the columns BTC ... USDS |
| PortfolioOpt.BnbColumnNames | tests/test_portfolioOpt.py:107-111 | those columns are BTC, ETH, USDT, XRP, PAX, TUSD, USDC, USDS |
| PortfolioOpt.BnbTable | tests/test_portfolioOpt.py:107-118 | the BNB table is those columns followed by the BNB column of five ones |
| PortfolioOpt.BnbPricingData | tests/test_portfolioOpt.py:107-118 | BNB test, with no zero close in the seven flipped `BNB/X` markets: nine distinct columns ending with BNB, five rows each; XRP keeps its closes and BTC is flipped |
| PortfolioOpt.UsdtTable | tests/test_portfolioOpt.py:4-14 | the USDT table is BTC, ETH, BNB and the USDT column of three ones |
| PortfolioOpt.UsdtPricingData | tests/test_portfolioOpt.py:120-125 | USDT test: four distinct columns BTC, ETH, BNB, USDT of three rows; none flipped |
| PortfolioOpt.NonZeroWeights | payload/portfolioOpt.py:133 | the filter keeps exactly the weights > 0 |
| PortfolioOpt.NonZeroWeightsInOrder | payload/portfolioOpt.py:133 | the kept weights keep their dict order |
| PortfolioOpt.NonZeroWeightsIdempotent | payload/portfolioOpt.py:133 | filtering twice filters nothing more |
| PortfolioOpt.GenerateReport | payload/portfolioOpt.py:113-155 | fails exactly when the table build fails, with the same error; returns the cleaned weights and the five lines from the optimizer's and the forward evaluation's values |
| PortfolioOpt.ReportShape | payload/portfolioOpt.py:133-149 | a buildable input always gives five lines, and the forward evaluation sees only positive weights |
| LegacyPortfolioOpt.ShiftMonth | payload/portfolio_opt.py:60-61 | the new month is always in 1..12 |
| LegacyPortfolioOpt.MonthsFromDate | payload/portfolio_opt.py:56-61 | a result keeps the day and has the written year and month; a day missing from the month is a ValueError |
| LegacyPortfolioOpt.ShiftMonthCount | payload/portfolio_opt.py:61 | the written arithmetic moves by the offset, plus 12 months when the new month is a multiple of 12 |
| LegacyPortfolioOpt.ShiftMonthYear | payload/portfolio_opt.py:61 | 12 more months is one more year and the same month |
| LegacyPortfolioOpt.MonthsFromDateYear | payload/portfolio_opt.py:59-61 | on dates, 12 more months is the same month and day one year later |
| LegacyPortfolioOpt.ShiftMonthExactIff | payload/portfolio_opt.py:61 | the shift is exact iff the new month is not a multiple of 12 |
| LegacyPortfolioOpt.MonthsFromDateAsWritten | payload/portfolio_opt.py:60-61 | Dec 1 2020 with offset 0 gives Dec 1 2021; Jun 15 2020 plus 6 gives Dec 15 2021 |
| LegacyPortfolioOpt.ShiftMonthIntended | payload/portfolio_opt.py:60-61 | the corrected month is in 1..12 |
| LegacyPortfolioOpt.MonthsFromDateIntended | payload/portfolio_opt.py:56-61 | the corrected function keeps the day and yields a real date |
| LegacyPortfolioOpt.ShiftMonthIntendedExact | payload/portfolio_opt.py:60-61 | the corrected shift moves by exactly the offset, agrees with the written one off multiples of 12, and offset 0 is the identity |
| LegacyPortfolioOpt.MonthsFromDateIntendedZero | payload/portfolio_opt.py:56-61 | the corrected function maps a date shifted by 0 months to itself |
| LegacyPortfolioOpt.Insert | payload/portfolio_opt.py:151 | insertion adds exactly the one entry |
| LegacyPortfolioOpt.InsertDescending | payload/portfolio_opt.py:151 | insertion into descending weights keeps them descending |
| LegacyPortfolioOpt.SortDescending | payload/portfolio_opt.py:151 | `sorted(..., key=-weight)` is a permutation of the weights |
| LegacyPortfolioOpt.SortDescendingSorted | payload/portfolio_opt.py:151 | the sorted weights are descending |
| LegacyPortfolioOpt.InsertWithWeight | payload/portfolio_opt.py:151 | insertion puts the new entry first among the entries of its weight |
| LegacyPortfolioOpt.SortDescendingStable | payload/portfolio_opt.py:151 | the sort is stable: equal weights keep their dict order |
| LegacyPortfolioOpt.WeightLines | payload/portfolio_opt.py:151-152 | one line per weight, in order, with the weight as a percentage |
| LegacyPortfolioOpt.GenerateReport | payload/portfolio_opt.py:127-156 | returns the positive weights; four summary lines, then the weight lines sorted from the largest down |
| LegacyPortfolioOpt.ReportSummary | payload/portfolio_opt.py:141-150 | the four summary lines are the expected return, the portfolio return over the forward range of the kept weights and the volatility, each times 100, and then the Sharpe ratio |
| LegacyPortfolioOpt.WeightLinesDescending | payload/portfolio_opt.py:151-152 | descending weights give descending percentage lines |
| LegacyPortfolioOpt.ReportWeights | payload/portfolio_opt.py:136-156 | every returned weight is strictly positive and has its line |
| LegacyPortfolioOpt.ReportLinesDescending | payload/portfolio_opt.py:151-152 | the weight lines run from the largest percentage down |
| Orderbook.AfterUpdateTob | payload/orderbook.py:65-97 | the record update touches neither the books nor the signals |
| Orderbook.AfterUpdateSignal | payload/orderbook.py:51-59 | the signal update touches only the signals |
| Orderbook.AfterUpdateOb | payload/orderbook.py:34-49 | the books become the given ones |
| Orderbook.UpdateObBounded | payload/orderbook.py:74-97 | every update keeps `len(spreads) == len(tob) + 1`, `len(tob) <= window` and `len(signal) <= window + 1` for a window >= 1 |
| Orderbook.UpdateObSucceeds | payload/orderbook.py:74-97 | with non-empty books: the new spread is ask0-bid0, the new record has the best levels, the step, mid as the average, spread as the difference and lag_spread as the suffix mean; the newest signal comes from the newest record |
| Orderbook.TopOfBook | payload/orderbook.py:86-97 | the record holds the best levels; ask and bid lie half a spread above and below the mid, which sits between them with a non-negative spread when the book is not crossed; the lagged mean exists iff its slice is non-empty |
| Orderbook.UpdateObEmptyBook | payload/orderbook.py:78 | an empty book fails with IndexError and adds no record, spread or signal |
| Orderbook.NonPositiveWindowFails | payload/orderbook.py:74-76 | a window <= 0 breaks the first update: there is no record to delete |
| Orderbook.LagSpreadOfLast | payload/orderbook.py:86 | a negative lag size averages the last \|lag\| spreads |
| Orderbook.Orderbook.constructor | payload/orderbook.py:11-32 | empty books, records and signals, one zero spread |
| Orderbook.UpdateTobSucceeds | payload/orderbook.py:65-97 | with both books non-empty the record update raises nothing, drops the oldest spread and record once the history is past the window, and appends the current spread and a record built from the best ask and bid |
| Orderbook.Orderbook.UpdateTob | payload/orderbook.py:65-97 | `_update_tob` leaves the state that `AfterUpdateTob` describes, failures included |
| Orderbook.Orderbook.UpdateSignal | payload/orderbook.py:51-59 | `_update_signal` leaves the state that `AfterUpdateSignal` describes |
| Orderbook.Orderbook.UpdateOb | payload/orderbook.py:34-49 | `update_ob` leaves the state that `AfterUpdateOb` describes and keeps the bounds |
| Orderbook.Orderbook.ReportTopOfBook | payload/orderbook.py:99-107 | the record at the given step, counted from the end when negative; the default gives the latest record |
| Signal.Slide | payload/signal.py:157-166 | appending and optionally dropping the first entry gives the new length and ends with the new value |
| Signal.PushFull | payload/signal.py:157-166 | a full window stays full and moves on by one |
| Signal.PushAllTail | payload/signal.py:157-166 | after any run of appends a full window holds the newest `window` values |
| Signal.Sign | payload/signal.py:71-75 | the sign is -1, 0 or 1 and agrees with the difference |
| Signal.Trend | payload/signal.py:78-94 | f1 is 1 iff `p[-5]<p[-3]<p[-1]` and `p[-4]<p[-2]`, -1 iff the mirror holds, else 0 |
| Signal.TrendOfMonotone | payload/signal.py:78-94 | five rising prices give 1, five falling give -1, five equal give 0 |
| Signal.Threshold | payload/signal.py:101-103 | a volume flag is in {-1,0,1}: 1 iff the ratio grew by more than valpha, -1 iff it shrank by more |
| Signal.VolumeFeature | payload/signal.py:97-105 | f2 is defined exactly on three quantities with non-zero divisors and is in {-1,0,1}; 1 needs growth beyond valpha, -1 shrinkage |
| Signal.OvSignal | payload/signal.py:60-119 | the feature vectors exist exactly when both price windows have 5 entries and both volume features are defined |
| Signal.OvFeaturesInRange | payload/signal.py:71-119 | every feature is in {-1,0,1}; f0 is the sign of the newest price step; f1 flags the rising or falling trend |
| Signal.MacdOf | payload/signal.py:131-141 | the direction is the MACD's sign; the force is the MACD minus the history mean, defined iff the history is not empty |
| Signal.InitialWindows | payload/signal.py:25-43 | the constructor's windows have `window` entries and the return ring ten |
| Signal.AfterPush | payload/signal.py:157-166 | only the four level windows change; their shape is kept and the ask and bid price windows end with the new prices |
| Signal.AfterOv | payload/signal.py:60-119 | only the two feature vectors change |
| Signal.AfterMacd | payload/signal.py:121-152 | only the MACD histories and features change, and the window shape is kept |
| Signal.AfterSignal | payload/signal.py:154-179 | the return ring keeps ten entries and the window shape is kept; a success reports the step and the stored feature vectors |
| Signal.AfterMid | payload/signal.py:46-51 | the return ring keeps its ten entries |
| Signal.SignalKeepsShape | payload/signal.py:147-166 | every call keeps all window lengths and the ring length, and the four windows end with the new levels |
| Signal.ShortWindowFails | payload/signal.py:78 | a window below five makes every call fail with IndexError |
| Signal.SignalReportsStep | payload/signal.py:168-176 | a successful call reports the given step and the stored features; the MACD features read the history before the call |
| Signal.SignalSucceeds | payload/signal.py:154-179 | with window >= 5, non-zero divisor quantities and a positive mid ratio, a call succeeds |
| Signal.PushedOvSucceeds | payload/signal.py:60-119 | after a push the zig-zag step succeeds when the divisor quantities are non-zero |
| Signal.MidSucceeds | payload/signal.py:46-51 | a positive mid with a zero or positive previous mid never raises |
| Signal.FirstReturnIsZero | payload/signal.py:48-50 | the first mid update, or one with an unchanged mid, writes the return 100*log(1) = 0 at `step % 10` only |
| Signal.MidWritesOneSlot | payload/signal.py:47-51 | a mid update changes the ring only at `step % 10` and leaves the previous mid equal to the new one |
| Signal.FirstCallOfWindow | payload/signal.py:25-78 | the first call after construction passes the window test exactly when the window is at least five |
| Signal.Signal.constructor | payload/signal.py:11-43 | the initial windows of `Signal(window, valpha)` |
| Signal.Signal.MakeMidSignal | payload/signal.py:46-51 | `make_mid_signal` leaves the state `AfterMid` describes |
| Signal.Signal.MakeOvSignal | payload/signal.py:60-119 | `makeov_signal` writes only the two feature vectors, as `AfterOv` says |
| Signal.Signal.MakeMacdSignal | payload/signal.py:121-152 | `makemacd_signal` leaves the state `AfterMacd` describes |
| Signal.Signal.MakeSignal | payload/signal.py:154-179 | `make_signal` leaves the state `AfterSignal` describes, so all windows keep their lengths |
| Runner.Symbols | payload/runner.py:63-75 | a comprehension over the markets yields at most one symbol per market |
| Runner.SymbolsExact | payload/runner.py:63-75 | a symbol is selected iff some market selected by the test has it |
| Runner.IndexMarkets | payload/runner.py:63-64 | the first selection is exactly the markets pairing BTC with an index asset |
| Runner.OpenTickers | payload/runner.py:68-69 | exactly the index markets' tickers with positive bid and ask volume, unchanged |
| Runner.KeepOpen | payload/runner.py:72-73 | the narrowed list keeps exactly the listed markets with an open ticker |
| Runner.PortfolioMarkets | payload/runner.py:75-76 | exactly the markets whose base and quote are both portfolio assets |
| Runner.PortfolioBalances | payload/runner.py:220 | exactly the portfolio assets' balances, unchanged |
| Runner.IndexMarketsExact | payload/runner.py:63-73 | after start-up a market is an index market iff it pairs BTC with an index asset and has positive bid and ask volume |
| Runner.KeepOpenSubsequence | payload/runner.py:72-73 | the narrowed list keeps the first one's order |
| Runner.DueBounds | payload/runner.py:186 | step 0 is always due; with jitter in [10,30), 60 s is always due and 40 s or less after step 0 never is |
| Runner.Due | payload/runner.py:186 | step 0 is always due; a call that is not due comes at most `30 + jitter` seconds after the last update |
| Runner.DueFlags | payload/runner.py:184-190 | one due flag per call of a run of iterations |
| Runner.DueSpacing | payload/runner.py:184-190 | every due call after step 0 comes more than 40 s after the previous due time |
| Runner.FirstCallDue | payload/runner.py:186 | the first call of a run from step 0 is due |
| Runner.Index | payload/runner.py:94-106 | defined iff every market has a ticker and the volume is non-zero; KeyError for a missing ticker; the volume is the sum; no markets give zeros |
| Runner.ComputeIndex | yat/scindex.py:2-13 | the two loops compute `Index` |
| Runner.SumVolumes | yat/scindex.py:6-7 | the volume loop sums the base volumes, or fails on a missing ticker |
| Runner.WeightedSums | yat/scindex.py:8-12 | the price loop computes the volume-weighted sums |
| Runner.WeightedIsQuotient | yat/scindex.py:8-12 | adding the weighted terms one by one equals dividing the sum once |
| Runner.NumeratorBetween | payload/runner.py:100-104 | price bounds bound the volume-weighted numerator |
| Runner.IndexWithin | yat/scindex.py:8-12 | with non-negative volumes each index lies between any bounds of its prices |
| Runner.VolumeNonNegative | yat/scindex.py:6-7 | non-negative volumes sum to a non-negative volume |
| Runner.IndexOfEqualPrices | payload/runner.py:100-104 | equal prices give that price as index |
| Runner.FirstBtcMarket | payload/runner.py:128-130 | the first portfolio market naming the asset and BTC, or none |
| Runner.CountBtcBalance | payload/runner.py:125-134 | none exactly when no market matches; else the amount divided (USDT) or multiplied by the market's last close |
| Runner.SciBalance | payload/runner.py:136-142 | a missing balance is a KeyError; a missing index fails |
| Runner.BtcBalance | payload/runner.py:137-140 | BTC counts as its raw amount; there is no value exactly when a non-BTC asset has no BTC market; a zero amount is worth zero |
| Runner.SciBalanceOf | yat/scindex.py:15-20 | BTC uses its raw balance, others the converted one, times the index mid; no BTC market is a TypeError |
| Runner.SciBalanceLinear | yat/scindex.py:20 | the value in index units is linear in the balance |
| Runner.BtcBalanceLinear | payload/runner.py:131-134 | the BTC conversion is linear in the amount |
| Runner.Runner.constructor | payload/runner.py:43-76 | step 0, no index value, and the market selections over the exchange tables |
| Runner.Runner.WaitTimeout | payload/runner.py:184-190 | returns the due flag; on a due call the recorded time becomes now, otherwise nothing changes |
| Runner.Runner.EndIteration | payload/runner.py:246 | the step counter goes up by one |
| Runner.Runner.CalculateIndex | payload/runner.py:94-106 | returns `Index` and stores it on success |
| Streamer.ApplyChange | binance/wsclient.py:480-483 | a positive quantity sets the price; any other removes it, a no-op when absent |
| Streamer.LastQuantity | binance/wsclient.py:474-494 | the quantity of the last entry naming a price, none iff no entry names it |
| Streamer.ApplyChangesAt | binance/wsclient.py:474-483 | after a run of changes a price follows its last change; an unnamed price is unchanged |
| Streamer.LoadAt | binance/wsclient.py:469-472 | after loading, a price holds its last snapshot quantity; an unnamed price is unchanged |
| Streamer.UpdateSides | binance/wsclient.py:467-494 | bid changes leave the asks alone; a book with entries ignores the snapshot |
| Streamer.AfterUpdate | binance/wsclient.py:464-494 | the asks follow only the ask changes; a book with an entry on either side ignores the snapshot |
| Streamer.SnapshotAsksIntoBids | binance/wsclient.py:469-472 | as written, a snapshot ask lands in the bids and the asks stay empty |
| Streamer.IntendedLoadsBothSides | binance/wsclient.py:467-494 | the corrected update loads each side from its own snapshot side, then applies the message |
| Streamer.LoadLevels | binance/wsclient.py:469-472 | the snapshot loop computes `Load` |
| Streamer.ApplyLevels | binance/wsclient.py:474-494 | the change loop computes `ApplyChanges` |
| Streamer.Streamer.constructor | binance/wsclient.py:532-538 | no books yet |
| Streamer.Streamer.AddOrderBook | binance/wsclient.py:532-538 | the symbol gets a book with both sides empty |
| Streamer.Streamer.UpdateOrderBook | binance/wsclient.py:464-494 | KeyError for a symbol without a book; otherwise only that symbol's book changes, as `AfterUpdate` says |
| Streamer.Streamer.GetOrderBook | binance/wsclient.py:542-547 | the cached book, or a KeyError |
| Streamer.DictSet | binance/wsclient.py:76-78 | `d[k] = v`: a present key keeps its place, a new one goes last |
| Streamer.KeyList | binance/wsclient.py:71 | `list(d.keys())` lists every key in dict order |
| Streamer.StripNone | binance/wsclient.py:70-73 | exactly the entries with a value, in order |
| Streamer.LookupFirst | binance/wsclient.py:72 | `d[k]` finds the entry with key k |
| Streamer.DeleteAbsent | binance/wsclient.py:73 | deleting an absent key changes nothing |
| Streamer.StripNoneNoKey | binance/wsclient.py:70-73 | stripping adds no key |
| Streamer.StripStep | binance/wsclient.py:71-73 | one loop turn looks up the key's original value and deletes it iff `None` |
| Streamer.PrepareAddsTwo | binance/wsclient.py:70-78 | unsigned calls only drop the `None` values; signed calls append exactly timestamp and a signature over the stripped query |
| Streamer.Prepare | binance/wsclient.py:70-78 | only present values are sent; an unsigned call keeps exactly the present entries, a signed one carries a signature |
| Streamer.SignedQuery | binance/wsclient.py:75-77 | the signed query carries only present values and a timestamp |
| Streamer.ResetTimestamp | binance/wsclient.py:75 | setting `timestamp` in a dict that already begins with it overwrites that entry in place |
| Streamer.SharedDefaultAsWritten | binance/wsclient.py:69-78 | a second signed call signs a query still holding the first signature, and unsigned calls send both |
| Streamer.FreshDefaultIntended | binance/wsclient.py:69-78 | with a fresh dict a signed call signs exactly the timestamp |
| Streamer.QueryParams.constructor | binance/wsclient.py:69 | the dict holds the given entries |
| Streamer.QueryParams.StripNoneValues | binance/wsclient.py:70-73 | the loop leaves exactly `StripNone` of the dict |
| Streamer.QueryParams.AddSignature | binance/wsclient.py:75-78 | sets timestamp, then the signature over the dict as it then is |
| Streamer.QueryParams.PrepareParams | binance/wsclient.py:70-78 | the dict ends as `Prepare` says |

## Left out

- The rebalancing recommendations and quote generation are empty stubs in
  payload/runner.py:178-182, and order placement is commented out.
  Neither is modelled.
- Exchange and network I/O is not modelled: ccxt `create_order`,
  `fetch_ob`, `get_ohlcv`, `_fetch_ticker`, urllib, websockets, asyncio
  tasks and `sys.exit`.
  - Responses are parameters, with `None` for a raising call.
  - `GetAllTickers` reports the exit in its result.
- The clocks (`time()`, `time_ns()`), `randrange` jitter, HMAC signature,
  `math.log`, exponential averages (`np.average` with `np.exp` weights) and
  `pstdev` are parameters or left out.
- RestClient.CalcTickersRun: every symbol of one run is stamped with the
  same `now`. The source reads `time_ns()` again for each symbol, so its
  stamps within a run can differ.
- `Signal.SignalOut` omits the `vol` entry (`pstdev(ret10)`).
- `Signal.MacdOf` omits `np.around(..., 4)` on the force. It cannot
  average an empty window. The `IndexError` order on short windows in
  `makeov_signal` is collapsed into one IndexError.
- `reset_current` (it only sets unused fields) and `make_vol_signal` are not
  modelled.
- `ObSignal` is not part of this model. `Orderbook.SignalRecord` is an
  opaque type, and the signal maker is a constructor parameter.
- `Orderbook.Orderbook.UpdateOb` does not model `.clear()` on the old book
  lists. That call also empties the previous caller's lists by aliasing.
- `_lob`, `_update_lob` (an empty body) and the logger are not modelled. The
  `self._spreads[-1] >= 0 is True` check never raises, so it has no effect.
- `PortfolioOpt.BuildPricingData` treats rows as positions, assuming
  aligned timestamps. Pandas date-index alignment, `ctime` formatting and
  `deepcopy` are not modelled.
- `PortfolioOpt.GenerateReport` and `LegacyPortfolioOpt.GenerateReport`
  take the optimizer (`EfficientFrontier`, `clean_weights`,
  `portfolio_performance`) and `forward_looking_return` as parameters.
  - The lines are structured values, not the formatted strings: the
    `{:.2f}` rounding is not modelled.
- payload/portfolio_opt.py: the `data_c.columns = [assets_list]`
  MultiIndex rename and `str(key[0])` are not modelled. The report lines
  use the asset key as the optimizer yields it.
- `Parsing.ParseDecimal` and `Parsing.ParseInt` accept only a subset of
  the syntax: signed decimal numerals.
  - Exponents, underscores, surrounding whitespace, `inf`/`nan` and
    `strptime`'s other field spellings are not modelled. Strings using
    them read as `None`, which Python may accept.
  - The parsed `datetime` is a date without a time of day.
- The UI table formatting of payload/runner.py (`_update_index_data`,
  `_update_portfolio_data`, `_update_pctchange_data`) and the main loop's
  I/O are not modelled. The curses UIs, settings, logging and InfluxDB
  are not modelled either.
- `Runner.Runner.constructor` does not model the `time_ns()` stamp written
  into `scindex_tickers`.
  - The candles of `_count_btc_balance` are given as a map from market to
    closes.
  - The runner's tables are values, so aliasing with the REST client's
    tables is not modelled.
- binance/wsclient.py:
  - The `query_params is None` branch is not modelled; no caller passes
    `None`.
  - `urlencode` escaping is not modelled.
  - Depth prices and quantities are read as `real` rather than
    `Decimal`.
  - The `order_book(symbol)` snapshot is a parameter.
- `RestClient.RestClient.FetchBalances` and
  `RestClient.RestClient.constructor` model `balances` as a map from the
  start, where the source begins with an empty list.
- RestClient.FilterNotNull: the kept `free` and `locked` entries are the
  response's raw strings in binance/restclient.py:104-106; only `all` is a
  float. The model keeps them as the parsed `real` amounts. Nothing
  downstream reads the two fields, so this changes no modelled result.
- Floating-point rounding is not modelled: all arithmetic is exact on
  `real`. Integer widths do not matter in this core.

## Findings

| source | as written | input that shows it | evidently intended | confidence | as-written member | corrected member |
|---|---|---|---|---|---|---|
| core/core.py:21-22 (and yat/calcus.py:13-14) | `float('%d'.format(number))` leaves the text "%d", which `float` rejects, so every precision <= 0, including the default 0, raises ValueError | `rounded_to_precision(401.46, 0)` | `float('%d' % number)`: the integer part of the number | high, not executed | Precision.DefaultPrecisionFails | Precision.RoundedToPrecisionIntended (Precision.IntendedTruncates) |
| payload/portfolio_opt.py:60-61 | `year + floor(new_month / 12)` with `(new_month % 12) or 12` moves a whole year too far when the new month is a multiple of 12 | `months_from_date(date(2020, 12, 1), 0)` gives 2021-12-01 | shift by exactly `months_offset` months | high, not executed | LegacyPortfolioOpt.MonthsFromDateAsWritten | LegacyPortfolioOpt.MonthsFromDateIntended (LegacyPortfolioOpt.ShiftMonthIntendedExact, LegacyPortfolioOpt.MonthsFromDateIntendedZero) |
| binance/wsclient.py:471-472 | the snapshot's asks are written into `book["bids"]`, so the asks side starts empty and the bids hold the ask levels | an empty book, snapshot bids `[(1, 2)]`, asks `[(3, 4)]`, an empty message: bids `{1: 2, 3: 4}`, asks `{}` | `book["asks"][p] = q` | high, not executed | Streamer.SnapshotAsksIntoBids | Streamer.AfterUpdateIntended (Streamer.IntendedLoadsBothSides) |
| binance/wsclient.py:69, 75-78 | the default `query_params={}` is one dict shared by every call that omits it; a signed call leaves `timestamp` and `signature` in it, so the next signed call (`account_info`, line 400) signs a query that still holds the old signature | two `account_info()` calls: the second signs `timestamp=t2&signature=s1` | a fresh empty dict per call, such as `query_params=None` with `{}` created inside | medium, not executed | Streamer.SharedDefaultAsWritten | Streamer.FreshDefaultIntended |
