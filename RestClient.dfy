/** The exchange-side bookkeeping of binance/restclient.py: balance
    filtering, the order history counter, the per-trader order lookup table
    and the ticker-derived mid, spread and spread-percent values. The ccxt
    calls themselves are parameters: a response, or `None` when the call
    raised. */
module RestClient {
  import opened Common
  import opened Precision

  // ---------------------------------------------------------------------
  // Balances

  /** One entry of `balances['info']['balances']`, with `free` and `locked`
      read as numbers. */
  datatype BalanceRow = BalanceRow(asset: string, free: real, locked: real)

  /** A kept balance: the two amounts and their total `all`. */
  datatype Balance = Balance(free: real, locked: real, all: real)

  predicate NotNull(x: BalanceRow)
  {
    x.free > 0.0 || x.locked > 0.0
  }

  /** `_filter_not_null`: one entry per asset with a positive free or locked
      amount; a later row for the same asset overwrites an earlier one. */
  function FilterNotNull(rows: seq<BalanceRow>): (r: map<string, Balance>)
    ensures forall a :: a in r ==> r[a].all == r[a].free + r[a].locked
    ensures forall a :: a in r ==> r[a].free > 0.0 || r[a].locked > 0.0
  {
    if rows == [] then map[]
    else
      var acc := FilterNotNull(rows[..|rows| - 1]);
      var x := rows[|rows| - 1];
      if NotNull(x) then acc[x.asset := Balance(x.free, x.locked, x.free + x.locked)] else acc
  }

  /** An asset is kept exactly when some row for it has a positive amount. */
  lemma {:induction false} FilterNotNullKeys(rows: seq<BalanceRow>)
    ensures forall a :: a in FilterNotNull(rows) <==>
      exists i :: 0 <= i < |rows| && rows[i].asset == a && NotNull(rows[i])
  {
    if rows != [] {
      var init := rows[..|rows| - 1];
      FilterNotNullKeys(init);
      forall a | exists i :: 0 <= i < |rows| && rows[i].asset == a && NotNull(rows[i])
        ensures a in FilterNotNull(rows)
      {
        var i :| 0 <= i < |rows| && rows[i].asset == a && NotNull(rows[i]);
        if i < |rows| - 1 {
          assert init[i] == rows[i];
        }
      }
      forall a | a in FilterNotNull(rows)
        ensures exists i :: 0 <= i < |rows| && rows[i].asset == a && NotNull(rows[i])
      {
        if a in FilterNotNull(init) {
          var i :| 0 <= i < |init| && init[i].asset == a && NotNull(init[i]);
          assert rows[i] == init[i];
        } else {
          assert rows[|rows| - 1].asset == a;
        }
      }
    }
  }

  /** Row `i` is the last row for `a` with a positive amount. */
  predicate LastPositive(rows: seq<BalanceRow>, a: string, i: int)
  {
    0 <= i < |rows| && rows[i].asset == a && NotNull(rows[i])
    && forall j :: i < j < |rows| && rows[j].asset == a ==> !NotNull(rows[j])
  }

  /** Each kept entry copies the amounts of the last positive row for its
      asset unchanged. */
  lemma {:induction false} FilterNotNullValues(rows: seq<BalanceRow>, a: string)
    requires a in FilterNotNull(rows)
    ensures exists i :: (LastPositive(rows, a, i)
      && FilterNotNull(rows)[a] == Balance(rows[i].free, rows[i].locked, rows[i].free + rows[i].locked))
  {
    var n := |rows| - 1;
    var init := rows[..n];
    var x := rows[n];
    if NotNull(x) && x.asset == a {
      assert LastPositive(rows, a, n);
      assert FilterNotNull(rows)[a] == Balance(x.free, x.locked, x.free + x.locked);
    } else {
      assert FilterNotNull(rows) == FilterNotNull(init)[x.asset := Balance(x.free, x.locked, x.free + x.locked)]
          || FilterNotNull(rows) == FilterNotNull(init);
      assert a in FilterNotNull(init) && FilterNotNull(rows)[a] == FilterNotNull(init)[a];
      FilterNotNullValues(init, a);
      var i :| LastPositive(init, a, i)
        && FilterNotNull(init)[a] == Balance(init[i].free, init[i].locked, init[i].free + init[i].locked);
      LastPositiveExtend(rows, a, i);
    }
  }

  /** A last positive row of all but the final row stays the last one when
      the final row is not a positive row for the same asset. */
  lemma LastPositiveExtend(rows: seq<BalanceRow>, a: string, i: int)
    requires rows != [] && LastPositive(rows[..|rows| - 1], a, i)
    requires !(NotNull(rows[|rows| - 1]) && rows[|rows| - 1].asset == a)
    ensures LastPositive(rows, a, i) && rows[i] == rows[..|rows| - 1][i]
  {
    var init := rows[..|rows| - 1];
    forall j | i < j < |rows| && rows[j].asset == a
      ensures !NotNull(rows[j])
    {
      if j < |rows| - 1 {
        assert rows[j] == init[j];
      }
    }
  }

  // ---------------------------------------------------------------------
  // Orders and tickers

  /** The fields of an order dict that the history copies. */
  datatype Order = Order(orderId: string, timestamp: int, otype: string, quantity: real, side: string, price: real)

  /** An order history record: the order's fields plus its `exid`. */
  datatype HistoryRecord = HistoryRecord(exid: nat, order: Order)

  /** The values `calc_tickers` adds to a ticker. */
  datatype TickerStats = TickerStats(midPrice: real, spread: real, spreadP: real, timestamp: int)

  /** A ticker of `fetch_bids_asks`, with the derived values once computed. */
  datatype Ticker = Ticker(ask: real, bid: real, askVolume: real, bidVolume: real, baseVolume: real,
                           stats: Option<TickerStats>)

  /** The lookup table after `_add_order_to_lookup(trader, order, exId)`. */
  function WithLookup(lookup: map<string, map<string, int>>, trader: string, order: string, exId: int)
    : (r: map<string, map<string, int>>)
    ensures r.Keys == lookup.Keys + {trader}
    ensures order in r[trader] && r[trader][order] == exId
    ensures forall o :: o in r[trader] && o != order ==> trader in lookup && o in lookup[trader]
    ensures trader in lookup ==> forall o :: o in lookup[trader] && o != order ==>
      o in r[trader] && r[trader][o] == lookup[trader][o]
    ensures forall t :: t in lookup && t != trader ==> r[t] == lookup[t]
  {
    if trader in lookup then lookup[trader := lookup[trader][order := exId]]
    else lookup[trader := map[order := exId]]
  }

  /** Mid, spread and spread percentage as `calc_tickers` derives them;
      the percentage divides by the mid without a guard. */
  function TickerStatsOf(t: Ticker, now: int): (r: Result<TickerStats>)
    ensures r.Err? <==> TruncTo((t.bid + t.ask) / 2.0, 8) == 0.0
    ensures r.Err? ==> r.error == ZeroDivisionError
  {
    var mid := TruncTo((t.bid + t.ask) / 2.0, 8);
    var spread := TruncTo(t.ask - t.bid, 8);
    if mid == 0.0 then Err(ZeroDivisionError)
    else Ok(TickerStats(mid, spread, TruncTo(100.0 * spread / mid, 4), now))
  }

  /** The derived values are truncations toward zero, each within one
      grid step of the exact mid, spread and spread percentage, and a
      crossed-free book (bid <= ask) has a non-negative spread. */
  lemma TickerStatsBounds(t: Ticker, now: int)
    requires TickerStatsOf(t, now).Ok?
    ensures var s := TickerStatsOf(t, now).value;
      && RoundedToPrecision((t.bid + t.ask) / 2.0, 8) == Ok(s.midPrice)
      && RoundedToPrecision(t.ask - t.bid, 8) == Ok(s.spread)
      && RoundedToPrecision(100.0 * s.spread / s.midPrice, 4) == Ok(s.spreadP)
      && -1.0 / Pow10(8) < (t.bid + t.ask) / 2.0 - s.midPrice < 1.0 / Pow10(8)
      && -1.0 / Pow10(8) < (t.ask - t.bid) - s.spread < 1.0 / Pow10(8)
      && (t.bid <= t.ask ==> 0.0 <= s.spread <= t.ask - t.bid)
      && s.timestamp == now
  {
    TowardZero((t.bid + t.ask) / 2.0, 8);
    TowardZero(t.ask - t.bid, 8);
  }

  /** One symbol of `calc_tickers`: a KeyError when the symbol is not in
      the table, the ZeroDivisionError of a zero mid, or the table with the
      ticker's derived values set. */
  function CalcStep(table: map<string, Ticker>, s: string, now: int): (r: (map<string, Ticker>, Option<Failure>))
    ensures r.1.Some? ==> r.0 == table
    ensures r.1.None? <==> s in table && TickerStatsOf(table[s], now).Ok?
    ensures r.1 == Some(KeyError) <==> s !in table
  {
    if s !in table then (table, Some(KeyError))
    else match TickerStatsOf(table[s], now)
      case Err(f) => (table, Some(f))
      case Ok(st) => (table[s := table[s].(stats := Some(st))], None)
  }

  /** The ticker table and the failure, if any, after `calc_tickers` has
      run over `syms` in order. A KeyError or ZeroDivisionError stops the
      loop; symbols handled before it keep their new values. */
  function CalcTickersRun(table: map<string, Ticker>, syms: seq<string>, now: int)
    : (r: (map<string, Ticker>, Option<Failure>))
    ensures r.1.Some? ==> r.1 == Some(KeyError) || r.1 == Some(ZeroDivisionError)
    ensures syms == [] ==> r.1.None?
  {
    if syms == [] then (table, None)
    else
      var (t, e) := CalcTickersRun(table, syms[..|syms| - 1], now);
      if e.Some? then (t, e) else CalcStep(t, syms[|syms| - 1], now)
  }

  /** A run over one more symbol is the run so far followed by one step,
      unless the run so far has failed. */
  lemma CalcTickersRunSnoc(table: map<string, Ticker>, syms: seq<string>, i: nat, now: int)
    requires i < |syms|
    ensures var (t, e) := CalcTickersRun(table, syms[..i], now);
      CalcTickersRun(table, syms[..i + 1], now) == if e.Some? then (t, e) else CalcStep(t, syms[i], now)
  {
    assert syms[..i + 1][..i] == syms[..i];
  }

  /** A run keeps the table's keys and every ticker's exchange data, and
      touches no symbol outside the selection. */
  lemma {:induction false} CalcTickersFrame(table: map<string, Ticker>, syms: seq<string>, now: int)
    ensures var t := CalcTickersRun(table, syms, now).0;
      && t.Keys == table.Keys
      && (forall s :: s in t ==> t[s].(stats := table[s].stats) == table[s])
      && (forall s :: s in table && s !in syms ==> t[s] == table[s])
  {
    if syms != [] {
      var init := syms[..|syms| - 1];
      CalcTickersFrame(table, init, now);
      assert forall s :: s in init ==> s in syms;
    }
  }

  /** Every selected symbol is in the table with a non-zero truncated mid. */
  predicate AllComputable(table: map<string, Ticker>, syms: seq<string>, now: int)
  {
    forall s :: s in syms ==> s in table && TickerStatsOf(table[s], now).Ok?
  }

  /** The derived values depend on the ask and the bid only. */
  lemma StatsOfQuotes(t: Ticker, u: Ticker, now: int)
    requires t.ask == u.ask && t.bid == u.bid
    ensures TickerStatsOf(t, now) == TickerStatsOf(u, now)
  {
  }

  /** A run sees the symbol after `syms[..n]` as the table had it. */
  lemma RunSeesOriginal(table: map<string, Ticker>, syms: seq<string>, n: nat, now: int)
    requires n < |syms|
    ensures var t := CalcTickersRun(table, syms[..n], now).0;
      && (syms[n] in t <==> syms[n] in table)
      && (syms[n] in table ==> TickerStatsOf(t[syms[n]], now) == TickerStatsOf(table[syms[n]], now))
  {
    CalcTickersFrame(table, syms[..n], now);
    var t := CalcTickersRun(table, syms[..n], now).0;
    if syms[n] in table {
      assert t[syms[n]].(stats := table[syms[n]].stats) == table[syms[n]];
      StatsOfQuotes(t[syms[n]], table[syms[n]], now);
    }
  }

  /** A run succeeds exactly when every selected symbol is in the table and
      has a non-zero truncated mid. */
  lemma {:induction false} CalcTickersOk(table: map<string, Ticker>, syms: seq<string>, now: int)
    ensures CalcTickersRun(table, syms, now).1.None? <==> AllComputable(table, syms, now)
  {
    if syms != [] {
      var n := |syms| - 1;
      var init := syms[..n];
      var s := syms[n];
      assert syms == init + [s];
      CalcTickersOk(table, init, now);
      RunSeesOriginal(table, syms, n, now);
      assert AllComputable(table, syms, now) <==>
        AllComputable(table, init, now) && s in table && TickerStatsOf(table[s], now).Ok?;
    }
  }

  /** After a successful run every selected ticker carries its derived
      values. */
  lemma {:induction false} CalcTickersValues(table: map<string, Ticker>, syms: seq<string>, now: int)
    requires CalcTickersRun(table, syms, now).1.None?
    ensures var t := CalcTickersRun(table, syms, now).0;
      forall s :: s in syms ==>
        (s in table && s in t && TickerStatsOf(table[s], now).Ok?
         && t[s] == table[s].(stats := Some(TickerStatsOf(table[s], now).value)))
  {
    if syms != [] {
      var n := |syms| - 1;
      var init := syms[..n];
      var s := syms[n];
      assert syms == init + [s];
      var t0 := CalcTickersRun(table, init, now).0;
      CalcTickersValues(table, init, now);
      RunSeesOriginal(table, syms, n, now);
      CalcTickersOk(table, syms, now);
      var t := CalcTickersRun(table, syms, now).0;
      assert t == t0[s := t0[s].(stats := Some(TickerStatsOf(table[s], now).value))];
      CalcTickersFrame(table, init, now);
      assert t0[s].(stats := table[s].stats) == table[s];
    }
  }

  /** A run succeeds exactly when every selected symbol is in the table and
      has a non-zero truncated mid; then every selected ticker carries its
      derived values. */
  lemma CalcTickersSuccess(table: map<string, Ticker>, syms: seq<string>, now: int)
    ensures var (t, e) := CalcTickersRun(table, syms, now);
      && (e.None? <==> forall s :: s in syms ==> s in table && TickerStatsOf(table[s], now).Ok?)
      && (e.None? ==> forall s :: s in syms ==>
            s in t && t[s] == table[s].(stats := Some(TickerStatsOf(table[s], now).value)))
  {
    CalcTickersOk(table, syms, now);
    if CalcTickersRun(table, syms, now).1.None? {
      CalcTickersValues(table, syms, now);
    }
  }

  // ---------------------------------------------------------------------
  // The client

  class RestClient {
    var balances: map<string, Balance>
    var orderIndex: nat
    var orderHistory: seq<HistoryRecord>
    var lookup: map<string, map<string, int>>
    var allTickers: map<string, Ticker>

    /** The history holds one record per order added, numbered 1, 2, 3, ... */
    ghost predicate Valid()
      reads this
    {
      |orderHistory| == orderIndex &&
      forall i :: 0 <= i < |orderHistory| ==> orderHistory[i].exid == i + 1
    }

    constructor ()
      ensures Valid()
      ensures balances == map[] && orderIndex == 0 && orderHistory == []
      ensures lookup == map[] && allTickers == map[]
    {
      balances := map[];
      orderIndex := 0;
      orderHistory := [];
      lookup := map[];
      allTickers := map[];
    }

    /** `add_order_to_history`: the index goes up by one and one record with
        that index is appended; earlier records stay as they were. */
    method AddOrderToHistory(order: Order)
      requires Valid()
      modifies this
      ensures Valid()
      ensures orderIndex == old(orderIndex) + 1
      ensures orderHistory == old(orderHistory) + [HistoryRecord(orderIndex, order)]
      ensures balances == old(balances) && lookup == old(lookup) && allTickers == old(allTickers)
    {
      orderIndex := orderIndex + 1;
      orderHistory := orderHistory + [HistoryRecord(orderIndex, order)];
    }

    /** `_add_order_to_lookup`. */
    method AddOrderToLookup(trader: string, order: string, exId: int)
      modifies this
      ensures lookup == WithLookup(old(lookup), trader, order, exId)
      ensures balances == old(balances) && orderIndex == old(orderIndex)
      ensures orderHistory == old(orderHistory) && allTickers == old(allTickers)
    {
      if trader in lookup {
        lookup := lookup[trader := lookup[trader][order := exId]];
      } else {
        lookup := lookup[trader := map[order := exId]];
      }
    }

    /** `fetch_balances`: the filtered response, or an empty table when the
        exchange call raised. */
    method FetchBalances(response: Option<seq<BalanceRow>>)
      modifies this
      ensures balances == if response.Some? then FilterNotNull(response.value) else map[]
      ensures orderIndex == old(orderIndex) && orderHistory == old(orderHistory)
      ensures lookup == old(lookup) && allTickers == old(allTickers)
    {
      if response.Some? {
        balances := FilterNotNull(response.value);
      } else {
        balances := map[];
      }
    }

    /** `get_all_tickers`: the table is replaced by the response; when the
        exchange call raised the process exits, which the result reports. */
    method GetAllTickers(response: Option<map<string, Ticker>>) returns (exited: bool)
      modifies this
      ensures exited <==> response.None?
      ensures allTickers == if response.Some? then response.value else old(allTickers)
      ensures balances == old(balances) && orderIndex == old(orderIndex)
      ensures orderHistory == old(orderHistory) && lookup == old(lookup)
    {
      if response.Some? {
        allTickers := response.value;
        exited := false;
      } else {
        exited := true;
      }
    }

    /** `calc_tickers(tickers)`: processes the given symbols, or every key of
        the table (in the order reported as `order`), stopping at the first
        KeyError or ZeroDivisionError; `now` stands for the `time_ns()`
        clock reading. */
    method CalcTickers(tickers: Option<seq<string>>, now: int)
      returns (failure: Option<Failure>, order: seq<string>)
      modifies this
      ensures tickers.Some? ==> order == tickers.value
      ensures tickers.None? ==> Elements(order) == old(allTickers).Keys && NoDuplicates(order)
      ensures (allTickers, failure) == CalcTickersRun(old(allTickers), order, now)
      ensures balances == old(balances) && orderIndex == old(orderIndex)
      ensures orderHistory == old(orderHistory) && lookup == old(lookup)
    {
      if tickers.Some? {
        order := tickers.value;
      } else {
        order := ListOf(allTickers.Keys);
      }
      ghost var table := allTickers;
      failure := None;
      var i := 0;
      while i < |order| && failure.None?
        invariant 0 <= i <= |order|
        invariant (allTickers, failure) == CalcTickersRun(table, order[..i], now)
        invariant failure.Some? ==> CalcTickersRun(table, order, now) == (allTickers, failure)
        invariant balances == old(balances) && orderIndex == old(orderIndex)
        invariant orderHistory == old(orderHistory) && lookup == old(lookup)
      {
        var s := order[i];
        ghost var before := allTickers;
        if s !in allTickers {
          failure := Some(KeyError);
        } else {
          var st := TickerStatsOf(allTickers[s], now);
          if st.Err? {
            failure := Some(st.error);
          } else {
            allTickers := allTickers[s := allTickers[s].(stats := Some(st.value))];
          }
        }
        assert (allTickers, failure) == CalcStep(before, s, now);
        CalcTickersRunSnoc(table, order, i, now);
        if failure.Some? {
          CalcTickersStops(table, order, i + 1, now);
        }
        i := i + 1;
      }
      if failure.None? {
        assert order[..i] == order;
      }
    }
  }

  /** Once a run has failed, the rest of the selection changes nothing. */
  lemma {:induction false} CalcTickersStops(table: map<string, Ticker>, syms: seq<string>, k: nat, now: int)
    requires k <= |syms| && CalcTickersRun(table, syms[..k], now).1.Some?
    ensures CalcTickersRun(table, syms, now) == CalcTickersRun(table, syms[..k], now)
    decreases |syms| - k
  {
    if k < |syms| {
      assert syms[..k + 1][..k] == syms[..k];
      CalcTickersStops(table, syms, k + 1, now);
    } else {
      assert syms[..k] == syms;
    }
  }

  /** The order history numbers its records 1, 2, 3, ...: the `exid`s are
      strictly increasing. */
  lemma HistoryIdsIncreasing(client: RestClient, i: int, j: int)
    requires client.Valid() && 0 <= i < j < |client.orderHistory|
    ensures client.orderHistory[i].exid < client.orderHistory[j].exid
  {
  }
}
