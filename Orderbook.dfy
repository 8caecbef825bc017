/** The order-book tracker of payload/orderbook.py: each update replaces the
    two books, appends one top-of-book record and one spread to bounded
    histories, and appends one signal made from the newest record. The
    signal maker (`ObSignal`) is a parameter. */
module Orderbook {
  import opened Common

  /** One `[price, quantity]` level of a book. */
  datatype Level = Level(price: real, quantity: real)

  /** The `tobd` dict of `_update_tob`. */
  datatype Tob = Tob(runStep: int, timestamp: int,
                     askPrice: real, askQuantity: real, bidPrice: real, bidQuantity: real,
                     midPrice: real, spread: real, lagSpread: Option<real>)

  /** What `ObSignal.make_signal` returns; ObSignal is not part of this
      model. */
  type SignalRecord

  /** The fields an update touches. */
  datatype Books = Books(askBook: seq<Level>, bidBook: seq<Level>, tob: seq<Tob>,
                         spreads: seq<real>, signal: seq<SignalRecord>)

  /** A fresh tracker: empty books and histories, one zero spread. */
  function Initial(): Books
  {
    Books([], [], [], [0.0], [])
  }

  /** The histories' length relation and bounds for a window of at least 1. */
  predicate Bounded(b: Books, window: int)
  {
    |b.spreads| == |b.tob| + 1 && |b.tob| <= window && |b.signal| <= window + 1
  }

  /** The record `_update_tob` builds from the best levels, the step, the
      clock and the spread history that already holds the new spread. */
  function TopOfBook(ask: Level, bid: Level, runStep: int, now: int, spreads: seq<real>, lagSize: int): (r: Tob)
    ensures r.askPrice == ask.price && r.askQuantity == ask.quantity
    ensures r.bidPrice == bid.price && r.bidQuantity == bid.quantity
    ensures r.askPrice == r.midPrice + r.spread / 2.0 && r.bidPrice == r.midPrice - r.spread / 2.0
    ensures bid.price <= ask.price ==> r.spread >= 0.0 && bid.price <= r.midPrice <= ask.price
    ensures r.lagSpread.Some? <==> |PySuffix(spreads, lagSize)| > 0
  {
    Tob(runStep, now, ask.price, ask.quantity, bid.price, bid.quantity,
        (ask.price + bid.price) / 2.0, ask.price - bid.price, Mean(PySuffix(spreads, lagSize)))
  }

  /** `_update_tob`: over the window, drop the oldest spread and the oldest
      record (each `del` fails on an empty list), then append the new
      spread and record; an empty book fails at `[0][0]`. What was dropped
      before a failure stays dropped. */
  function AfterUpdateTob(b: Books, window: int, runStep: int, lagSize: int, now: int): (r: (Books, Option<Failure>))
    ensures r.0.askBook == b.askBook && r.0.bidBook == b.bidBook && r.0.signal == b.signal
  {
    var over := |b.spreads| > window;
    if over && b.spreads == [] then (b, Some(IndexError))
    else
      var spreads := if over then b.spreads[1..] else b.spreads;
      if over && b.tob == [] then (b.(spreads := spreads), Some(IndexError))
      else
        var tob := if over then b.tob[1..] else b.tob;
        if b.askBook == [] || b.bidBook == [] then (b.(spreads := spreads, tob := tob), Some(IndexError))
        else
          var newSpreads := spreads + [b.askBook[0].price - b.bidBook[0].price];
          var t := TopOfBook(b.askBook[0], b.bidBook[0], runStep, now, newSpreads, lagSize);
          (b.(spreads := newSpreads, tob := tob + [t]), None)
  }

  /** `_update_signal`: over the window drop the oldest signal, then append
      the signal of `report_top_of_book()`, the newest record. */
  function AfterUpdateSignal(b: Books, window: int, runStep: int, makeSignal: (Tob, int) -> SignalRecord): (r: (Books, Option<Failure>))
    ensures r.0.askBook == b.askBook && r.0.bidBook == b.bidBook && r.0.tob == b.tob && r.0.spreads == b.spreads
  {
    var over := |b.signal| > window;
    if over && b.signal == [] then (b, Some(IndexError))
    else
      var signal := if over then b.signal[1..] else b.signal;
      match PyAt(b.tob, -1)
      case None => (b.(signal := signal), Some(IndexError))
      case Some(t) => (b.(signal := signal + [makeSignal(t, runStep)]), None)
  }

  /** `update_ob(order_book, run_step, spread_lag_size)`: replace the books,
      then update the records and, if that succeeded, the signals. */
  function AfterUpdateOb(b: Books, window: int, makeSignal: (Tob, int) -> SignalRecord,
                    asks: seq<Level>, bids: seq<Level>, runStep: int, lagSize: int, now: int): (r: (Books, Option<Failure>))
    ensures r.0.askBook == asks && r.0.bidBook == bids
  {
    var (b1, f1) := AfterUpdateTob(b.(askBook := asks, bidBook := bids), window, runStep, lagSize, now);
    if f1.Some? then (b1, f1) else AfterUpdateSignal(b1, window, runStep, makeSignal)
  }

  /** Every update, successful or not, keeps the length relation and the
      bounds when the window is at least 1. */
  lemma UpdateObBounded(b: Books, window: int, makeSignal: (Tob, int) -> SignalRecord,
                        asks: seq<Level>, bids: seq<Level>, runStep: int, lagSize: int, now: int)
    requires window >= 1 && Bounded(b, window)
    ensures Bounded(AfterUpdateOb(b, window, makeSignal, asks, bids, runStep, lagSize, now).0, window)
  {
    var (b1, f1) := AfterUpdateTob(b.(askBook := asks, bidBook := bids), window, runStep, lagSize, now);
    assert Bounded(b1, window);
    if f1.None? {
      assert b1.tob != [];
    }
  }

  /** With two non-empty books and a window of at least 1 the record
      update succeeds: it drops the oldest spread and record when the
      history is full and appends the newest ones. */
  lemma UpdateTobSucceeds(b: Books, window: int, runStep: int, lagSize: int, now: int)
    requires window >= 1 && Bounded(b, window) && b.askBook != [] && b.bidBook != []
    ensures var kept := if |b.spreads| > window then 1 else 0;
      var r := AfterUpdateTob(b, window, runStep, lagSize, now);
      var spreads := b.spreads[kept..] + [b.askBook[0].price - b.bidBook[0].price];
      && r.1 == None
      && r.0.spreads == spreads
      && r.0.tob == b.tob[kept..] + [TopOfBook(b.askBook[0], b.bidBook[0], runStep, now, spreads, lagSize)]
  {
  }

  /** With two non-empty books and a window of at least 1 an update
      succeeds: the newest record is built from the best levels (mid price
      the average, spread the difference, the lagged spread the mean of the
      spread history from `spread_lag_size` on), the newest spread is the
      difference, the older records are kept but for the oldest one when
      the history was full, and the newest signal is made from the newest
      record. */
  lemma UpdateObSucceeds(b: Books, window: int, makeSignal: (Tob, int) -> SignalRecord,
                         asks: seq<Level>, bids: seq<Level>, runStep: int, lagSize: int, now: int)
    requires window >= 1 && Bounded(b, window) && asks != [] && bids != []
    ensures var (r, f) := AfterUpdateOb(b, window, makeSignal, asks, bids, runStep, lagSize, now);
      var kept := if |b.spreads| > window then 1 else 0;
      var spreads := b.spreads[kept..] + [asks[0].price - bids[0].price];
      && f == None
      && r.spreads == spreads
      && r.tob == b.tob[kept..] + [TopOfBook(asks[0], bids[0], runStep, now, spreads, lagSize)]
      && r.tob[|r.tob| - 1].midPrice == (asks[0].price + bids[0].price) / 2.0
      && r.tob[|r.tob| - 1].spread == asks[0].price - bids[0].price
      && r.tob[|r.tob| - 1].lagSpread == Mean(PySuffix(spreads, lagSize))
      && |r.signal| > 0 && r.signal[|r.signal| - 1] == makeSignal(r.tob[|r.tob| - 1], runStep)
  {
    var b0 := b.(askBook := asks, bidBook := bids);
    UpdateTobSucceeds(b0, window, runStep, lagSize, now);
    var (b1, f1) := AfterUpdateTob(b0, window, runStep, lagSize, now);
    assert b1.tob != [] && PyAt(b1.tob, -1) == Some(b1.tob[|b1.tob| - 1]);
  }

  /** An empty book makes the update fail with IndexError, and no record,
      spread or signal is added. */
  lemma UpdateObEmptyBook(b: Books, window: int, makeSignal: (Tob, int) -> SignalRecord,
                          asks: seq<Level>, bids: seq<Level>, runStep: int, lagSize: int, now: int)
    requires window >= 1 && Bounded(b, window) && (asks == [] || bids == [])
    ensures var (r, f) := AfterUpdateOb(b, window, makeSignal, asks, bids, runStep, lagSize, now);
      f == Some(IndexError) && |r.tob| <= |b.tob| && |r.spreads| <= |b.spreads| && r.signal == b.signal
  {
  }

  /** A window of 0 or less breaks the first update of a fresh tracker:
      the single spread is deleted and there is no record to delete. */
  lemma NonPositiveWindowFails(window: int, makeSignal: (Tob, int) -> SignalRecord,
                               asks: seq<Level>, bids: seq<Level>, runStep: int, lagSize: int, now: int)
    requires window <= 0
    ensures AfterUpdateOb(Initial(), window, makeSignal, asks, bids, runStep, lagSize, now).1 == Some(IndexError)
  {
  }

  /** With a negative `spread_lag_size` the lagged spread is the mean of the
      last `-spread_lag_size` spreads. */
  lemma LagSpreadOfLast(spreads: seq<real>, k: nat)
    requires 0 < k <= |spreads|
    ensures var v: int := k; Mean(PySuffix(spreads, -v)) == Mean(spreads[|spreads| - k..])
  {
  }

  class Orderbook {
    const window: int
    const makeSignal: (Tob, int) -> SignalRecord
    var askBook: seq<Level>
    var bidBook: seq<Level>
    var tob: seq<Tob>
    var spreads: seq<real>
    var signal: seq<SignalRecord>

    function State(): Books
      reads this
    {
      Books(askBook, bidBook, tob, spreads, signal)
    }

    ghost predicate Valid()
      reads this
    {
      window >= 1 ==> Bounded(State(), window)
    }

    /** `Orderbook(window)`, with the signal maker given. */
    constructor (window: int, makeSignal: (Tob, int) -> SignalRecord)
      ensures Valid()
      ensures State() == Initial()
      ensures this.window == window && this.makeSignal == makeSignal
    {
      this.window := window;
      this.makeSignal := makeSignal;
      askBook := [];
      bidBook := [];
      tob := [];
      spreads := [0.0];
      signal := [];
    }

    method UpdateTob(runStep: int, lagSize: int, now: int) returns (failure: Option<Failure>)
      modifies this
      ensures (State(), failure) == AfterUpdateTob(old(State()), window, runStep, lagSize, now)
    {
      ghost var b := State();
      if |spreads| > window {
        if spreads == [] {
          return Some(IndexError);
        }
        spreads := spreads[1..];
        if tob == [] {
          return Some(IndexError);
        }
        tob := tob[1..];
      }
      ghost var trimmed := State();
      assert trimmed.spreads == (if |b.spreads| > window then b.spreads[1..] else b.spreads);
      assert trimmed.tob == (if |b.spreads| > window then b.tob[1..] else b.tob);
      if askBook == [] || bidBook == [] {
        return Some(IndexError);
      }
      spreads := spreads + [askBook[0].price - bidBook[0].price];
      var t := TopOfBook(askBook[0], bidBook[0], runStep, now, spreads, lagSize);
      tob := tob + [t];
      assert State() == trimmed.(spreads := spreads, tob := trimmed.tob + [t]);
      return None;
    }

    method UpdateSignal(runStep: int) returns (failure: Option<Failure>)
      modifies this
      ensures (State(), failure) == AfterUpdateSignal(old(State()), window, runStep, makeSignal)
    {
      if |signal| > window {
        if signal == [] {
          return Some(IndexError);
        }
        signal := signal[1..];
      }
      var latest := ReportTopOfBook(-1);
      if latest.None? {
        return Some(IndexError);
      }
      signal := signal + [makeSignal(latest.value, runStep)];
      return None;
    }

    /** `update_ob`: the state after the call is the one `UpdateOb`
        describes, so the bounds hold again. */
    method UpdateOb(asks: seq<Level>, bids: seq<Level>, runStep: int, lagSize: int, now: int)
      returns (failure: Option<Failure>)
      requires Valid()
      modifies this
      ensures (State(), failure) == AfterUpdateOb(old(State()), window, makeSignal, asks, bids, runStep, lagSize, now)
      ensures Valid()
    {
      ghost var before := State();
      askBook := asks;
      bidBook := bids;
      failure := UpdateTob(runStep, lagSize, now);
      if failure.None? {
        failure := UpdateSignal(runStep);
      }
      if window >= 1 {
        UpdateObBounded(before, window, makeSignal, asks, bids, runStep, lagSize, now);
      }
    }

    /** `report_top_of_book(step)`: the record at `step`, counted from the
        end when negative; `None` where the list index raises. */
    method ReportTopOfBook(step: int) returns (r: Option<Tob>)
      ensures r == PyAt(tob, step)
      ensures step == -1 && tob != [] ==> r == Some(tob[|tob| - 1])
    {
      r := PyAt(tob, step);
    }
  }
}
