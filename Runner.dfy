/** The arithmetic of payload/runner.py and yat/scindex.py: the market
    selections made when the runner starts, the jittered update clock, the
    volume-weighted index over the index markets and the conversion of a
    portfolio balance into index units. The exchange tables are inputs. */
module Runner {
  import opened Common
  import opened RestClient

  // ---------------------------------------------------------------------
  // Market selections

  /** One entry of the exchange's `markets` table, in table order. */
  datatype Market = Market(symbol: string, base: string, quote: string)

  /** A market pairing BTC with an index asset, in either direction. */
  predicate IsIndexMarket(m: Market, scindex: seq<string>)
  {
    (m.base in scindex && m.quote == "BTC") || (m.quote in scindex && m.base == "BTC")
  }

  /** The symbols of the markets that `keep` selects, in table order. */
  function Symbols(markets: seq<Market>, keep: Market -> bool): (r: seq<string>)
    ensures |r| <= |markets|
  {
    if markets == [] then []
    else
      var rest := Symbols(markets[1..], keep);
      if keep(markets[0]) then [markets[0].symbol] + rest else rest
  }

  /** Some market that `keep` selects has the symbol `x`. */
  predicate Selected(markets: seq<Market>, keep: Market -> bool, x: string)
  {
    exists i :: 0 <= i < |markets| && markets[i].symbol == x && keep(markets[i])
  }

  lemma {:induction false} SymbolsExact(markets: seq<Market>, keep: Market -> bool, x: string)
    ensures x in Symbols(markets, keep) <==> Selected(markets, keep, x)
  {
    if markets != [] {
      var tail := markets[1..];
      SymbolsExact(tail, keep, x);
      if Selected(tail, keep, x) {
        var i :| 0 <= i < |tail| && tail[i].symbol == x && keep(tail[i]);
        assert markets[i + 1] == tail[i];
      }
      if Selected(markets, keep, x) {
        var i :| 0 <= i < |markets| && markets[i].symbol == x && keep(markets[i]);
        if i > 0 {
          assert tail[i - 1] == markets[i];
        }
      }
    }
  }

  /** The first `scindex_markets` comprehension. */
  function IndexMarkets(markets: seq<Market>, scindex: seq<string>): (r: seq<string>)
    ensures forall x :: x in r <==> exists i :: 0 <= i < |markets| && markets[i].symbol == x && IsIndexMarket(markets[i], scindex)
  {
    var keep := m => IsIndexMarket(m, scindex);
    assert forall x :: x in Symbols(markets, keep) <==> Selected(markets, keep, x) by {
      forall x ensures x in Symbols(markets, keep) <==> Selected(markets, keep, x) {
        SymbolsExact(markets, keep, x);
      }
    }
    Symbols(markets, keep)
  }

  /** `scindex_tickers`: the tickers of index markets with bids and asks
      on offer. */
  function OpenTickers(tickers: map<string, Ticker>, indexMarkets: seq<string>): (r: map<string, Ticker>)
    ensures forall x :: x in r <==> x in tickers && x in indexMarkets && tickers[x].bidVolume > 0.0 && tickers[x].askVolume > 0.0
    ensures forall x :: x in r ==> r[x] == tickers[x]
  {
    map x | x in tickers && x in indexMarkets && tickers[x].bidVolume > 0.0 && tickers[x].askVolume > 0.0 :: tickers[x]
  }

  /** The second `scindex_markets` comprehension: keep the list order, drop
      the markets without an open ticker. */
  function KeepOpen(indexMarkets: seq<string>, open: map<string, Ticker>): (r: seq<string>)
    ensures forall x :: x in r <==> x in indexMarkets && x in open
    ensures |r| <= |indexMarkets|
  {
    if indexMarkets == [] then []
    else
      var rest := KeepOpen(indexMarkets[1..], open);
      if indexMarkets[0] in open then [indexMarkets[0]] + rest else rest
  }

  predicate IsPortfolioMarket(m: Market, assets: seq<string>)
  {
    m.base in assets && m.quote in assets
  }

  /** `portfolio_markets`: both sides are portfolio assets. */
  function PortfolioMarkets(markets: seq<Market>, assets: seq<string>): (r: seq<string>)
    ensures forall x :: x in r <==> exists i :: 0 <= i < |markets| && markets[i].symbol == x && IsPortfolioMarket(markets[i], assets)
  {
    var keep := m => IsPortfolioMarket(m, assets);
    assert forall x :: x in Symbols(markets, keep) <==> Selected(markets, keep, x) by {
      forall x ensures x in Symbols(markets, keep) <==> Selected(markets, keep, x) {
        SymbolsExact(markets, keep, x);
      }
    }
    Symbols(markets, keep)
  }

  /** The `balances` comprehension of the main loop: the portfolio assets'
      balances, unchanged. */
  function PortfolioBalances(balances: map<string, Balance>, assets: seq<string>): (r: map<string, Balance>)
    ensures r.Keys == balances.Keys * (set a | a in assets)
    ensures forall a :: a in r ==> r[a] == balances[a]
  {
    map a | a in balances && a in assets :: balances[a]
  }

  /** After start-up a market is an index market exactly when it pairs BTC
      with an index asset and its ticker has positive bid and ask volume. */
  lemma IndexMarketsExact(markets: seq<Market>, scindex: seq<string>, tickers: map<string, Ticker>, x: string)
    ensures var first := IndexMarkets(markets, scindex);
      x in KeepOpen(first, OpenTickers(tickers, first)) <==>
        && (exists i :: 0 <= i < |markets| && markets[i].symbol == x && IsIndexMarket(markets[i], scindex))
        && x in tickers && tickers[x].bidVolume > 0.0 && tickers[x].askVolume > 0.0
  {
  }

  /** The narrowed list keeps the order of the first one: it is one of its
      subsequences, obtained by dropping entries. */
  lemma {:induction false} KeepOpenSubsequence(indexMarkets: seq<string>, open: map<string, Ticker>)
    ensures IsSubsequence(KeepOpen(indexMarkets, open), indexMarkets)
  {
    if indexMarkets != [] {
      KeepOpenSubsequence(indexMarkets[1..], open);
    }
  }

  /** `a` is `b` with some entries dropped. */
  predicate IsSubsequence<T(==)>(a: seq<T>, b: seq<T>)
  {
    if a == [] then true
    else if b == [] then false
    else if a[0] == b[0] then IsSubsequence(a[1..], b[1..])
    else IsSubsequence(a, b[1..])
  }

  // ---------------------------------------------------------------------
  // The update clock

  /** `_wait_timeout` with `jitter = randrange(10, 30)`: due when more than
      `30 + jitter` seconds passed since the last update, or on step 0. */
  predicate Due(elapsed: int, jitter: int, runStep: int)
    ensures runStep == 0 ==> Due(elapsed, jitter, runStep)
    ensures !Due(elapsed, jitter, runStep) ==> elapsed <= 30 + jitter
  {
    elapsed > 30 + jitter || runStep == 0
  }

  /** Step 0 is always due; after that a minute always is and 40 seconds
      or less never is, whatever the jitter. */
  lemma DueBounds(elapsed: int, jitter: int, runStep: int)
    requires 10 <= jitter < 30
    ensures runStep == 0 ==> Due(elapsed, jitter, runStep)
    ensures elapsed >= 60 ==> Due(elapsed, jitter, runStep)
    ensures elapsed <= 40 && runStep != 0 ==> !Due(elapsed, jitter, runStep)
  {
  }

  /** The clock over a run of iterations: each `(now, jitter)` is one call,
      the step counts up by one per iteration, and the recorded time moves
      to `now` exactly on due calls. Returns the due flags. */
  function DueFlags(nowTime: int, runStep: int, calls: seq<(int, int)>): (r: seq<bool>)
    ensures |r| == |calls|
    decreases |calls|
  {
    if calls == [] then []
    else
      var (now, jitter) := calls[0];
      var due := Due(now - nowTime, jitter, runStep);
      [due] + DueFlags(if due then now else nowTime, runStep + 1, calls[1..])
  }

  /** With jitters in range, every due call after step 0 comes more than
      40 seconds after the time recorded before it, the time of the
      previous due call. */
  lemma {:induction false} DueSpacing(nowTime: int, runStep: int, calls: seq<(int, int)>, i: int)
    requires runStep >= 0
    requires forall k :: 0 <= k < |calls| ==> 10 <= calls[k].1 < 30
    requires 0 <= i < |calls| && DueFlags(nowTime, runStep, calls)[i] && runStep + i != 0
    ensures calls[i].0 - LastDue(nowTime, runStep, calls, i) > 40
    decreases |calls|
  {
    var (now, jitter) := calls[0];
    var due := Due(now - nowTime, jitter, runStep);
    if i > 0 {
      DueSpacing(if due then now else nowTime, runStep + 1, calls[1..], i - 1);
    }
  }

  /** The time recorded before call `i`: the time of the latest due call
      before it, or the starting time. */
  function LastDue(nowTime: int, runStep: int, calls: seq<(int, int)>, i: int): int
    requires 0 <= i <= |calls|
    decreases i
  {
    if i == 0 then nowTime
    else
      var (now, jitter) := calls[0];
      var due := Due(now - nowTime, jitter, runStep);
      LastDue(if due then now else nowTime, runStep + 1, calls[1..], i - 1)
  }

  lemma FirstCallDue(nowTime: int, calls: seq<(int, int)>)
    requires calls != []
    ensures DueFlags(nowTime, 0, calls)[0]
  {
  }

  // ---------------------------------------------------------------------
  // The index

  /** `(overall_volume, index_ask_price, index_bid_price)`. */
  datatype IndexValue = IndexValue(volume: real, ask: real, bid: real)

  datatype Side = Ask | Bid

  function PriceOf(t: Ticker, side: Side): real
  {
    match side
    case Ask => t.ask
    case Bid => t.bid
  }

  function Pick(v: IndexValue, side: Side): real
  {
    match side
    case Ask => v.ask
    case Bid => v.bid
  }

  predicate AllKnown(ms: seq<string>, tickers: map<string, Ticker>)
  {
    forall i :: 0 <= i < |ms| ==> ms[i] in tickers
  }

  /** The sum of base volumes over `ms`. */
  function VolumeOf(ms: seq<string>, tickers: map<string, Ticker>): real
    requires AllKnown(ms, tickers)
  {
    if ms == [] then 0.0 else VolumeOf(ms[..|ms| - 1], tickers) + tickers[ms[|ms| - 1]].baseVolume
  }

  /** The sum of `price * baseVolume / volume` over `ms`. */
  function Weighted(ms: seq<string>, tickers: map<string, Ticker>, side: Side, volume: real): real
    requires AllKnown(ms, tickers) && (ms == [] || volume != 0.0)
  {
    if ms == [] then 0.0
    else
      var t := tickers[ms[|ms| - 1]];
      Weighted(ms[..|ms| - 1], tickers, side, volume) + PriceOf(t, side) * t.baseVolume / volume
  }

  /** `_calculate_index`: KeyError for a market without a ticker (in the
      volume loop), ZeroDivisionError when the index markets have no volume
      at all; no index markets give three zeros. */
  function Index(ms: seq<string>, tickers: map<string, Ticker>): (r: Result<IndexValue>)
    ensures r.Ok? <==> AllKnown(ms, tickers) && (ms == [] || VolumeOf(ms, tickers) != 0.0)
    ensures !AllKnown(ms, tickers) ==> r == Err(KeyError)
    ensures r.Ok? ==> r.value.volume == VolumeOf(ms, tickers)
    ensures ms == [] ==> r == Ok(IndexValue(0.0, 0.0, 0.0))
  {
    if !AllKnown(ms, tickers) then Err(KeyError)
    else
      var v := VolumeOf(ms, tickers);
      if ms != [] && v == 0.0 then Err(ZeroDivisionError)
      else Ok(IndexValue(v, Weighted(ms, tickers, Ask, v), Weighted(ms, tickers, Bid, v)))
  }

  /** The two loops of `_calculate_index`, shared by both copies. */
  method ComputeIndex(ms: seq<string>, tickers: map<string, Ticker>) returns (r: Result<IndexValue>)
    ensures r == Index(ms, tickers)
  {
    var volume := SumVolumes(ms, tickers);
    if volume.None? {
      return Err(KeyError);
    }
    var v := volume.value;
    if ms != [] && v == 0.0 {
      return Err(ZeroDivisionError);
    }
    var ask, bid := WeightedSums(ms, tickers, v);
    return Ok(IndexValue(v, ask, bid));
  }

  /** The volume loop; `None` where a ticker lookup raises KeyError. */
  method SumVolumes(ms: seq<string>, tickers: map<string, Ticker>) returns (r: Option<real>)
    ensures r.Some? <==> AllKnown(ms, tickers)
    ensures r.Some? ==> r.value == VolumeOf(ms, tickers)
  {
    var volume := 0.0;
    for i := 0 to |ms|
      invariant AllKnown(ms[..i], tickers)
      invariant volume == VolumeOf(ms[..i], tickers)
    {
      if ms[i] !in tickers {
        return None;
      }
      assert ms[..i + 1][..i] == ms[..i];
      volume := volume + tickers[ms[i]].baseVolume;
    }
    assert ms[..|ms|] == ms;
    return Some(volume);
  }

  /** The price loop, once the volume is known not to be zero. */
  method WeightedSums(ms: seq<string>, tickers: map<string, Ticker>, volume: real) returns (ask: real, bid: real)
    requires AllKnown(ms, tickers) && (ms == [] || volume != 0.0)
    ensures ask == Weighted(ms, tickers, Ask, volume)
    ensures bid == Weighted(ms, tickers, Bid, volume)
  {
    ask, bid := 0.0, 0.0;
    for i := 0 to |ms|
      invariant ask == Weighted(ms[..i], tickers, Ask, volume)
      invariant bid == Weighted(ms[..i], tickers, Bid, volume)
    {
      assert ms[..i + 1][..i] == ms[..i];
      var t := tickers[ms[i]];
      ask := ask + t.ask * t.baseVolume / volume;
      bid := bid + t.bid * t.baseVolume / volume;
    }
    assert ms[..|ms|] == ms;
  }

  predicate VolumesNonNegative(ms: seq<string>, tickers: map<string, Ticker>)
    requires AllKnown(ms, tickers)
  {
    forall i :: 0 <= i < |ms| ==> tickers[ms[i]].baseVolume >= 0.0
  }

  predicate PricesWithin(ms: seq<string>, tickers: map<string, Ticker>, side: Side, lo: real, hi: real)
    requires AllKnown(ms, tickers)
  {
    forall i :: 0 <= i < |ms| ==> lo <= PriceOf(tickers[ms[i]], side) <= hi
  }

  /** The sum of `price * baseVolume` over `ms`. */
  function Numerator(ms: seq<string>, tickers: map<string, Ticker>, side: Side): real
    requires AllKnown(ms, tickers)
  {
    if ms == [] then 0.0
    else
      var t := tickers[ms[|ms| - 1]];
      Numerator(ms[..|ms| - 1], tickers, side) + PriceOf(t, side) * t.baseVolume
  }

  lemma InitKnown(ms: seq<string>, tickers: map<string, Ticker>)
    requires ms != [] && AllKnown(ms, tickers)
    ensures AllKnown(ms[..|ms| - 1], tickers)
    ensures VolumesNonNegative(ms, tickers) ==> VolumesNonNegative(ms[..|ms| - 1], tickers)
    ensures forall side: Side, lo: real, hi: real :: PricesWithin(ms, tickers, side, lo, hi) ==> PricesWithin(ms[..|ms| - 1], tickers, side, lo, hi)
  {
    var init := ms[..|ms| - 1];
    assert forall i :: 0 <= i < |init| ==> init[i] == ms[i];
  }

  /** Adding the weighted terms one by one is dividing their sum once. */
  lemma {:induction false} WeightedIsQuotient(ms: seq<string>, tickers: map<string, Ticker>, side: Side, volume: real)
    requires AllKnown(ms, tickers) && volume != 0.0
    ensures Weighted(ms, tickers, side, volume) == Numerator(ms, tickers, side) / volume
  {
    if ms != [] {
      InitKnown(ms, tickers);
      WeightedIsQuotient(ms[..|ms| - 1], tickers, side, volume);
      var t := tickers[ms[|ms| - 1]];
      var n, x := Numerator(ms[..|ms| - 1], tickers, side), PriceOf(t, side) * t.baseVolume;
      assert n / volume + x / volume == (n + x) / volume;
    }
  }

  /** One step of the upper bound: `p <= hi` and `w >= 0` keep
      `n <= hi * v` once `p * w` is added to `n` and `w` to `v`. */
  lemma StepBelow(n2: real, v2: real, n: real, v: real, p: real, w: real, hi: real)
    requires n <= hi * v && p <= hi && w >= 0.0
    requires n2 == n + p * w && v2 == v + w
    ensures n2 <= hi * v2
  {
    assert (hi - p) * w >= 0.0;
    assert hi * v2 == hi * v + hi * w;
  }

  /** One step of the lower bound, likewise. */
  lemma StepAbove(n2: real, v2: real, n: real, v: real, p: real, w: real, lo: real)
    requires lo * v <= n && lo <= p && w >= 0.0
    requires n2 == n + p * w && v2 == v + w
    ensures lo * v2 <= n2
  {
    assert (p - lo) * w >= 0.0;
    assert lo * v2 == lo * v + lo * w;
  }

  /** The bounds' preconditions carry over to all but the last market,
      and hold for the last one. */
  lemma InitBetween(ms: seq<string>, tickers: map<string, Ticker>, side: Side, lo: real, hi: real)
    requires ms != [] && AllKnown(ms, tickers)
    requires VolumesNonNegative(ms, tickers) && PricesWithin(ms, tickers, side, lo, hi)
    ensures AllKnown(ms[..|ms| - 1], tickers)
    ensures VolumesNonNegative(ms[..|ms| - 1], tickers) && PricesWithin(ms[..|ms| - 1], tickers, side, lo, hi)
    ensures lo <= PriceOf(tickers[ms[|ms| - 1]], side) <= hi && tickers[ms[|ms| - 1]].baseVolume >= 0.0
  {
    var init := ms[..|ms| - 1];
    assert forall i :: 0 <= i < |init| ==> init[i] == ms[i];
  }

  lemma {:induction false} NumeratorBelow(ms: seq<string>, tickers: map<string, Ticker>, side: Side, lo: real, hi: real)
    requires AllKnown(ms, tickers)
    requires VolumesNonNegative(ms, tickers) && PricesWithin(ms, tickers, side, lo, hi)
    ensures Numerator(ms, tickers, side) <= hi * VolumeOf(ms, tickers)
  {
    if ms != [] {
      var init := ms[..|ms| - 1];
      var t := tickers[ms[|ms| - 1]];
      InitBetween(ms, tickers, side, lo, hi);
      NumeratorBelow(init, tickers, side, lo, hi);
      NumeratorSnoc(ms, tickers, side);
      StepBelow(Numerator(ms, tickers, side), VolumeOf(ms, tickers),
                Numerator(init, tickers, side), VolumeOf(init, tickers), PriceOf(t, side), t.baseVolume, hi);
    }
  }

  lemma {:induction false} NumeratorAbove(ms: seq<string>, tickers: map<string, Ticker>, side: Side, lo: real, hi: real)
    requires AllKnown(ms, tickers)
    requires VolumesNonNegative(ms, tickers) && PricesWithin(ms, tickers, side, lo, hi)
    ensures lo * VolumeOf(ms, tickers) <= Numerator(ms, tickers, side)
  {
    if ms != [] {
      var init := ms[..|ms| - 1];
      var t := tickers[ms[|ms| - 1]];
      InitBetween(ms, tickers, side, lo, hi);
      NumeratorAbove(init, tickers, side, lo, hi);
      NumeratorSnoc(ms, tickers, side);
      StepAbove(Numerator(ms, tickers, side), VolumeOf(ms, tickers),
                Numerator(init, tickers, side), VolumeOf(init, tickers), PriceOf(t, side), t.baseVolume, lo);
    }
  }

  /** Price bounds bound the volume-weighted numerator. */
  lemma NumeratorBetween(ms: seq<string>, tickers: map<string, Ticker>, side: Side, lo: real, hi: real)
    requires AllKnown(ms, tickers)
    requires VolumesNonNegative(ms, tickers) && PricesWithin(ms, tickers, side, lo, hi)
    ensures lo * VolumeOf(ms, tickers) <= Numerator(ms, tickers, side) <= hi * VolumeOf(ms, tickers)
  {
    NumeratorAbove(ms, tickers, side, lo, hi);
    NumeratorBelow(ms, tickers, side, lo, hi);
  }

  lemma NumeratorSnoc(ms: seq<string>, tickers: map<string, Ticker>, side: Side)
    requires ms != [] && AllKnown(ms, tickers) && AllKnown(ms[..|ms| - 1], tickers)
    ensures var t := tickers[ms[|ms| - 1]];
      && Numerator(ms, tickers, side) == Numerator(ms[..|ms| - 1], tickers, side) + PriceOf(t, side) * t.baseVolume
      && VolumeOf(ms, tickers) == VolumeOf(ms[..|ms| - 1], tickers) + t.baseVolume
  {
  }

  /** With non-negative volumes, each index lies between any bounds of its
      prices, so between their minimum and maximum. */
  lemma IndexWithin(ms: seq<string>, tickers: map<string, Ticker>, side: Side, lo: real, hi: real)
    requires Index(ms, tickers).Ok? && ms != []
    requires VolumesNonNegative(ms, tickers) && PricesWithin(ms, tickers, side, lo, hi)
    ensures lo <= Pick(Index(ms, tickers).value, side) <= hi
  {
    IndexIsQuotient(ms, tickers, side);
    QuotientOfBounds(ms, tickers, side, lo, hi);
  }

  /** With non-negative volumes and a non-zero volume, the numerator over
      the volume lies within the price bounds. */
  lemma QuotientOfBounds(ms: seq<string>, tickers: map<string, Ticker>, side: Side, lo: real, hi: real)
    requires AllKnown(ms, tickers) && VolumeOf(ms, tickers) != 0.0
    requires VolumesNonNegative(ms, tickers) && PricesWithin(ms, tickers, side, lo, hi)
    ensures lo <= Numerator(ms, tickers, side) / VolumeOf(ms, tickers) <= hi
  {
    VolumeNonNegative(ms, tickers);
    NumeratorBetween(ms, tickers, side, lo, hi);
    QuotientBetween(Numerator(ms, tickers, side), VolumeOf(ms, tickers), lo, hi);
  }

  /** A defined index over some markets is the numerator over the volume. */
  lemma IndexIsQuotient(ms: seq<string>, tickers: map<string, Ticker>, side: Side)
    requires Index(ms, tickers).Ok? && ms != []
    ensures AllKnown(ms, tickers) && VolumeOf(ms, tickers) != 0.0
    ensures Pick(Index(ms, tickers).value, side) == Numerator(ms, tickers, side) / VolumeOf(ms, tickers)
  {
    var v := VolumeOf(ms, tickers);
    assert Pick(Index(ms, tickers).value, side) == Weighted(ms, tickers, side, v) by {
      match side
      case Ask =>
      case Bid =>
    }
    WeightedIsQuotient(ms, tickers, side, v);
  }

  lemma QuotientBetween(n: real, v: real, lo: real, hi: real)
    requires v > 0.0 && lo * v <= n <= hi * v
    ensures lo <= n / v <= hi
  {
    assert (n - lo * v) / v >= 0.0 && (hi * v - n) / v >= 0.0;
    assert (n - lo * v) / v == n / v - lo;
    assert (hi * v - n) / v == hi - n / v;
  }

  lemma {:induction false} VolumeNonNegative(ms: seq<string>, tickers: map<string, Ticker>)
    requires AllKnown(ms, tickers) && VolumesNonNegative(ms, tickers)
    ensures VolumeOf(ms, tickers) >= 0.0
  {
    if ms != [] {
      InitKnown(ms, tickers);
      VolumeNonNegative(ms[..|ms| - 1], tickers);
    }
  }

  /** Index markets that all quote one price give that price as index. */
  lemma IndexOfEqualPrices(ms: seq<string>, tickers: map<string, Ticker>, side: Side, c: real)
    requires Index(ms, tickers).Ok? && ms != []
    requires VolumesNonNegative(ms, tickers) && PricesWithin(ms, tickers, side, c, c)
    ensures Pick(Index(ms, tickers).value, side) == c
  {
    IndexWithin(ms, tickers, side, c, c);
  }

  // ---------------------------------------------------------------------
  // Balances in index units

  /** `asset in m and 'BTC' in m` on market names. */
  predicate BtcMarketOf(asset: string, m: string)
  {
    IsSubstring(asset, m) && IsSubstring("BTC", m)
  }

  /** The position of the first portfolio market naming both the asset
      and BTC. */
  function FirstBtcMarket(asset: string, ms: seq<string>): (r: Option<nat>)
    ensures r.Some? ==> r.value < |ms| && BtcMarketOf(asset, ms[r.value])
    ensures r.Some? ==> forall k :: 0 <= k < r.value ==> !BtcMarketOf(asset, ms[k])
    ensures r.None? ==> forall k :: 0 <= k < |ms| ==> !BtcMarketOf(asset, ms[k])
  {
    if ms == [] then None
    else if BtcMarketOf(asset, ms[0]) then Some(0)
    else match FirstBtcMarket(asset, ms[1..])
      case None => None
      case Some(k) => Some(k + 1)
  }

  /** `_count_btc_balance(amount, asset)`, with `closes[m]` the closes of
      market `m`'s candles: the amount divided by (for USDT) or multiplied
      by the newest close of the first BTC market; `None` when there is
      none. KeyError, IndexError and ZeroDivisionError come from the
      candle lookup and the division. */
  function CountBtcBalance(amount: real, asset: string, ms: seq<string>, closes: map<string, seq<real>>)
    : (r: Result<Option<real>>)
    ensures r == Ok(None) <==> FirstBtcMarket(asset, ms).None?
    ensures r.Ok? && r.value.Some? ==>
      var m := ms[FirstBtcMarket(asset, ms).value];
      && m in closes && closes[m] != []
      && var c := closes[m][|closes[m]| - 1];
      && (asset == "USDT" ==> c != 0.0 && r.value.value == amount / c)
      && (asset != "USDT" ==> r.value.value == amount * c)
  {
    match FirstBtcMarket(asset, ms)
    case None => Ok(None)
    case Some(k) =>
      var m := ms[k];
      if m !in closes then Err(KeyError)
      else if closes[m] == [] then Err(IndexError)
      else
        var c := closes[m][|closes[m]| - 1];
        if asset == "USDT" then (if c == 0.0 then Err(ZeroDivisionError) else Ok(Some(amount / c)))
        else Ok(Some(amount * c))
  }

  /** The `btc_balance` of `_count_sci_balance`: BTC is counted as is. */
  function BtcBalance(amount: real, asset: string, ms: seq<string>, closes: map<string, seq<real>>): (r: Result<Option<real>>)
    ensures asset == "BTC" ==> r == Ok(Some(amount))
    ensures r == Ok(None) <==> asset != "BTC" && FirstBtcMarket(asset, ms).None?
  {
    if asset == "BTC" then Ok(Some(amount)) else CountBtcBalance(amount, asset, ms, closes)
  }

  /** `_count_sci_balance(asset)`, shared by both copies: the BTC value of
      the `all` balance times the index mid price. A missing balance is a
      KeyError; a missing index or BTC market is a TypeError. */
  function SciBalance(asset: string, balances: map<string, Balance>, ms: seq<string>,
                      closes: map<string, seq<real>>, index: Option<IndexValue>): (r: Result<real>)
    ensures asset !in balances ==> r == Err(KeyError)
    ensures index.None? && asset in balances ==> r.Err?
  {
    if asset !in balances then Err(KeyError)
    else
      match BtcBalance(balances[asset].all, asset, ms, closes)
      case Err(e) => Err(e)
      case Ok(b) =>
        if index.None? || b.None? then Err(TypeError)
        else Ok(b.value * Mid(index.value))
  }

  /** The index mid price `(ask + bid) / 2`. */
  function Mid(v: IndexValue): real
  {
    (v.ask + v.bid) / 2.0
  }

  /** BTC is valued at its raw balance, another asset with a BTC market
      at its converted balance and one without at a TypeError. */
  lemma SciBalanceOf(asset: string, balances: map<string, Balance>, ms: seq<string>,
                     closes: map<string, seq<real>>, index: IndexValue)
    requires asset in balances
    ensures var mid := Mid(index);
      var amount := balances[asset].all;
      var r := SciBalance(asset, balances, ms, closes, Some(index));
      var b := CountBtcBalance(amount, asset, ms, closes);
      && (asset == "BTC" ==> r.Ok? && r.value == amount * mid)
      && (asset != "BTC" && b.Ok? && b.value.Some? ==> r.Ok? && r.value == b.value.value * mid)
      && (asset != "BTC" && FirstBtcMarket(asset, ms).None? ==> r.Err? && r.error == TypeError)
  {
  }

  /** The balances with `asset`'s `all` balance multiplied by `k`. */
  function ScaleAll(balances: map<string, Balance>, asset: string, k: real): (r: map<string, Balance>)
    requires asset in balances
    ensures asset in r && r[asset].all == k * balances[asset].all
  {
    balances[asset := balances[asset].(all := k * balances[asset].all)]
  }

  /** Scaling an asset's balance by `k` scales its value in index units by
      `k`. */
  lemma SciBalanceLinear(asset: string, balances: map<string, Balance>, ms: seq<string>,
                         closes: map<string, seq<real>>, index: Option<IndexValue>, k: real)
    requires asset in balances && SciBalance(asset, balances, ms, closes, index).Ok?
    ensures var r := SciBalance(asset, ScaleAll(balances, asset, k), ms, closes, index);
      r.Ok? && r.value == k * SciBalance(asset, balances, ms, closes, index).value
  {
    var a := balances[asset].all;
    var scaled := ScaleAll(balances, asset, k);
    var m := Mid(index.value);
    SciBalanceValue(asset, balances, ms, closes, index);
    BtcBalanceLinear(a, asset, ms, closes, k);
    var x := BtcBalance(a, asset, ms, closes).value.value;
    var b2 := BtcBalance(k * a, asset, ms, closes).value.value;
    var r1 := SciBalance(asset, balances, ms, closes, index).value;
    assert r1 == x * m;
    assert scaled[asset].all == k * a;
    SciBalanceValue(asset, scaled, ms, closes, index);
    assert SciBalance(asset, scaled, ms, closes, index).Ok?;
    var r2 := SciBalance(asset, scaled, ms, closes, index).value;
    assert r2 == b2 * m;
    ScaleChain(r2, b2, x, k, m, r1);
  }

  /** `r2 = (k * x) * m` and `r1 = x * m` give `r2 = k * r1`. */
  lemma ScaleChain(r2: real, b2: real, x: real, k: real, m: real, r1: real)
    requires r2 == b2 * m && b2 == k * x && r1 == x * m
    ensures r2 == k * r1
  {
    MulAssoc(k, x, m);
  }

  lemma MulAssoc(k: real, x: real, m: real)
    ensures (k * x) * m == k * (x * m)
  {
  }

  lemma DivAssoc(k: real, x: real, c: real)
    requires c != 0.0
    ensures (k * x) / c == k * (x / c)
  {
  }

  /** A successful valuation is the BTC balance times the index mid. */
  lemma SciBalanceValue(asset: string, balances: map<string, Balance>, ms: seq<string>,
                        closes: map<string, seq<real>>, index: Option<IndexValue>)
    requires asset in balances
    ensures var b := BtcBalance(balances[asset].all, asset, ms, closes);
      var r := SciBalance(asset, balances, ms, closes, index);
      r.Ok? <==> index.Some? && b.Ok? && b.value.Some?
    ensures var b := BtcBalance(balances[asset].all, asset, ms, closes);
      var r := SciBalance(asset, balances, ms, closes, index);
      r.Ok? ==> r.value == b.value.value * Mid(index.value)
  {
  }

  lemma BtcBalanceLinear(amount: real, asset: string, ms: seq<string>, closes: map<string, seq<real>>, k: real)
    requires BtcBalance(amount, asset, ms, closes).Ok? && BtcBalance(amount, asset, ms, closes).value.Some?
    ensures var r := BtcBalance(k * amount, asset, ms, closes);
      r.Ok? && r.value.Some? && r.value.value == k * BtcBalance(amount, asset, ms, closes).value.value
  {
    if asset != "BTC" {
      var m := ms[FirstBtcMarket(asset, ms).value];
      assert m in closes && closes[m] != [];
      var c := closes[m][|closes[m]| - 1];
      if asset == "USDT" {
        DivAssoc(k, amount, c);
      } else {
        MulAssoc(k, amount, c);
      }
    }
  }

  // ---------------------------------------------------------------------
  // The object

  class Runner {
    var nowTime: int
    var runStep: int
    var scindexValue: Option<IndexValue>
    const scindexMarkets: seq<string>
    const portfolioMarkets: seq<string>
    const portfolioAssets: seq<string>

    /** `Runner(...)` up to the main loop: the clock starts now at step 0,
        no index yet, and the market selections over the exchange tables.
        */
    constructor (now: int, markets: seq<Market>, scindex: seq<string>, tickers: map<string, Ticker>,
                 portfolio: seq<string>)
      ensures nowTime == now && runStep == 0 && scindexValue == None
      ensures var first := IndexMarkets(markets, scindex);
        scindexMarkets == KeepOpen(first, OpenTickers(tickers, first))
      ensures portfolioAssets == portfolio && portfolioMarkets == PortfolioMarkets(markets, portfolio)
    {
      nowTime := now;
      runStep := 0;
      scindexValue := None;
      var first := IndexMarkets(markets, scindex);
      scindexMarkets := KeepOpen(first, OpenTickers(tickers, first));
      portfolioAssets := portfolio;
      portfolioMarkets := PortfolioMarkets(markets, portfolio);
    }

    /** `_wait_timeout()` with the clock reading `now` and the drawn jitter:
        on a due call the recorded time becomes `now`, otherwise nothing
        changes. */
    method WaitTimeout(now: int, jitter: int) returns (due: bool)
      requires 10 <= jitter < 30
      modifies this
      ensures due == Due(now - old(nowTime), jitter, runStep)
      ensures nowTime == (if due then now else old(nowTime))
      ensures runStep == old(runStep) && scindexValue == old(scindexValue)
    {
      if now - nowTime > 30 + jitter || runStep == 0 {
        nowTime := now;
        return true;
      }
      return false;
    }

    /** The step counter at the end of each main-loop iteration. */
    method EndIteration()
      modifies this
      ensures runStep == old(runStep) + 1
      ensures nowTime == old(nowTime) && scindexValue == old(scindexValue)
    {
      runStep := runStep + 1;
    }

    /** `Runner._calculate_index()` over the current tickers: on success
        the index is also stored. */
    method CalculateIndex(tickers: map<string, Ticker>) returns (r: Result<IndexValue>)
      modifies this
      ensures r == Index(scindexMarkets, tickers)
      ensures scindexValue == (if r.Ok? then Some(r.value) else old(scindexValue))
      ensures nowTime == old(nowTime) && runStep == old(runStep)
    {
      r := ComputeIndex(scindexMarkets, tickers);
      if r.Ok? {
        scindexValue := Some(r.value);
      }
    }
  }
}
