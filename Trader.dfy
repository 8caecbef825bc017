/** The quote maker of payload/trader.py: a per-trader sequence counter, the
    order id scheme "trader id followed by the decimal sequence number", and
    the minimum-quantity gate. */
module Trader {
  import opened Common

  /** The dict `_make_add_quote` returns for an accepted quote. */
  datatype Quote = Quote(orderId: string, step: int, otype: string, quantity: real, side: string, price: real)

  /** `'%s%d' % (trader_id, sequence)`. */
  function OrderId(traderId: string, sequence: nat): (r: string)
    ensures |r| > |traderId| && r[..|traderId|] == traderId
    ensures AllDigits(r[|traderId|..])
  {
    traderId + NatToString(sequence)
  }

  /** An order id splits back into the trader id and the sequence number. */
  lemma OrderIdDecodes(traderId: string, sequence: nat)
    ensures |OrderId(traderId, sequence)| > |traderId|
    ensures OrderId(traderId, sequence)[..|traderId|] == traderId
    ensures AllDigits(OrderId(traderId, sequence)[|traderId|..])
    ensures DigitsValue(OrderId(traderId, sequence)[|traderId|..]) == sequence
  {
    var id := OrderId(traderId, sequence);
    assert id[|traderId|..] == NatToString(sequence);
    NatToStringRoundTrip(sequence);
  }

  /** One trader never issues the same id for two sequence numbers. */
  lemma OrderIdInjective(traderId: string, m: nat, n: nat)
    requires OrderId(traderId, m) == OrderId(traderId, n)
    ensures m == n
  {
    OrderIdDecodes(traderId, m);
    OrderIdDecodes(traderId, n);
  }

  class Trader {
    const traderId: string
    const traderType: string
    const maxQuantity: real
    const minQuantity: real
    var quoteCollector: seq<Quote>
    var quoteSequence: nat
    /** The order ids handed out so far, oldest first. */
    ghost var issued: seq<string>

    ghost predicate Valid()
      reads this
    {
      |issued| == quoteSequence &&
      forall i :: 0 <= i < |issued| ==> issued[i] == OrderId(traderId, i + 1)
    }

    /** `Trader(name, maxq, minq)`: no quotes yet, sequence at 0. */
    constructor (name: string, maxq: real, minq: real)
      ensures Valid()
      ensures traderId == name && traderType == "Trader"
      ensures maxQuantity == maxq && minQuantity == minq
      ensures quoteCollector == [] && quoteSequence == 0
    {
      traderId := name;
      traderType := "Trader";
      maxQuantity := maxq;
      minQuantity := minq;
      quoteCollector := [];
      quoteSequence := 0;
      issued := [];
    }

    /** `_make_add_quote(step, quantity, side, price)`: every call advances
        the sequence, accepted or not; a quantity at or above the minimum
        gives an 'add' quote under the new id, a smaller one the empty
        quote. The maximum quantity is not consulted. */
    method MakeAddQuote(step: int, quantity: real, side: string, price: real) returns (q: Option<Quote>)
      requires Valid()
      modifies this
      ensures Valid()
      ensures quoteSequence == old(quoteSequence) + 1
      ensures issued == old(issued) + [OrderId(traderId, quoteSequence)]
      ensures quantity >= minQuantity ==>
        q == Some(Quote(OrderId(traderId, quoteSequence), step, "add", quantity, side, price))
      ensures quantity < minQuantity ==> q == None
      ensures quoteCollector == old(quoteCollector)
    {
      quoteSequence := quoteSequence + 1;
      var orderId := OrderId(traderId, quoteSequence);
      issued := issued + [orderId];
      if quantity >= minQuantity {
        q := Some(Quote(orderId, step, "add", quantity, side, price));
      } else {
        q := None;
      }
    }
  }

  /** No two calls on one trader yield the same order id. */
  lemma IssuedIdsDistinct(t: Trader)
    requires t.Valid()
    ensures NoDuplicates(t.issued)
  {
    forall i, j | 0 <= i < j < |t.issued|
      ensures t.issued[i] != t.issued[j]
    {
      if t.issued[i] == t.issued[j] {
        OrderIdInjective(t.traderId, i + 1, j + 1);
      }
    }
  }
}
