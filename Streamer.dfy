/** Two pieces of binance/wsclient.py: the depth map a `Streamer` keeps per
    symbol and edits with every depth message, and the query-parameter
    preparation of `_geturl_json` (dropping `None` values, then adding a
    timestamp and a signature for signed calls). The web socket, the HTTP
    request and the HMAC are not part of this model; the initial snapshot,
    the clock and the signature are parameters. */
module Streamer {
  import opened Common

  // ---------------------------------------------------------------------
  // Depth maps

  /** One `[price, quantity]` entry of a depth message or a snapshot, with
      the decimal strings already read as numbers. */
  type Level = (real, real)

  /** The `{"bids": {}, "asks": {}}` dict of one symbol. */
  datatype Book = Book(bids: map<real, real>, asks: map<real, real>)

  /** `order_book(symbol)`. */
  datatype Snapshot = Snapshot(bids: seq<Level>, asks: seq<Level>)

  /** The `"b"` and `"a"` lists of a depth message. */
  datatype Changes = Changes(bids: seq<Level>, asks: seq<Level>)

  /** One change: a positive quantity sets the price level, any other
      removes it (removing an absent price does nothing). */
  function ApplyChange(m: map<real, real>, c: Level): (r: map<real, real>)
    ensures c.1 > 0.0 ==> r == m[c.0 := c.1]
    ensures c.1 <= 0.0 ==> r == m - {c.0}
  {
    if c.1 > 0.0 then m[c.0 := c.1] else m - {c.0}
  }

  /** The changes applied in message order. */
  function ApplyChanges(m: map<real, real>, cs: seq<Level>): map<real, real>
  {
    if cs == [] then m else ApplyChange(ApplyChanges(m, cs[..|cs| - 1]), cs[|cs| - 1])
  }

  /** A snapshot loaded level by level, whatever the quantity. */
  function Load(m: map<real, real>, levels: seq<Level>): map<real, real>
  {
    if levels == [] then m else
      var l := levels[|levels| - 1];
      Load(m, levels[..|levels| - 1])[l.0 := l.1]
  }

  /** The quantity of the last entry naming price `p`. */
  function LastQuantity(cs: seq<Level>, p: real): (r: Option<real>)
    ensures r.None? <==> forall i :: 0 <= i < |cs| ==> cs[i].0 != p
    ensures r.Some? ==> exists i :: 0 <= i < |cs| && cs[i] == (p, r.value)
  {
    if cs == [] then None
    else if cs[|cs| - 1].0 == p then Some(cs[|cs| - 1].1)
    else
      var r := LastQuantity(cs[..|cs| - 1], p);
      assert forall i :: 0 <= i < |cs| - 1 ==> cs[..|cs| - 1][i] == cs[i];
      r
  }

  /** After a run of changes, a price follows its last change: set to that
      quantity when positive, absent otherwise; a price no change names is
      as it was. */
  lemma {:induction false} ApplyChangesAt(m: map<real, real>, cs: seq<Level>, p: real)
    ensures var r := ApplyChanges(m, cs);
      match LastQuantity(cs, p)
      case None => (p in r <==> p in m) && (p in m ==> r[p] == m[p])
      case Some(q) => (q > 0.0 ==> p in r && r[p] == q) && (q <= 0.0 ==> p !in r)
  {
    if cs != [] {
      ApplyChangesAt(m, cs[..|cs| - 1], p);
    }
  }

  /** After loading, a price holds the quantity of its last snapshot level;
      a price the snapshot does not name is as it was. */
  lemma {:induction false} LoadAt(m: map<real, real>, levels: seq<Level>, p: real)
    ensures var r := Load(m, levels);
      match LastQuantity(levels, p)
      case None => (p in r <==> p in m) && (p in m ==> r[p] == m[p])
      case Some(q) => p in r && r[p] == q
  {
    if levels != [] {
      LoadAt(m, levels[..|levels| - 1], p);
    }
  }

  /** `__update_order_book(symbol, changes)` on the symbol's book: a book
      with both sides empty is first filled from the snapshot, whose asks
      the code writes into the bids map; then the bid changes edit the bids
      and the ask changes the asks. */
  function AfterUpdate(book: Book, snapshot: Snapshot, changes: Changes): (r: Book)
    ensures r.asks == ApplyChanges(book.asks, changes.asks)
    ensures |book.bids| > 0 || |book.asks| > 0 ==> r.bids == ApplyChanges(book.bids, changes.bids)
  {
    var bids :=
      if |book.bids| == 0 && |book.asks| == 0 then Load(Load(book.bids, snapshot.bids), snapshot.asks)
      else book.bids;
    Book(ApplyChanges(bids, changes.bids), ApplyChanges(book.asks, changes.asks))
  }

  /** The same update with the snapshot's asks loaded into the asks map. */
  function AfterUpdateIntended(book: Book, snapshot: Snapshot, changes: Changes): Book
  {
    var empty := |book.bids| == 0 && |book.asks| == 0;
    var bids := if empty then Load(book.bids, snapshot.bids) else book.bids;
    var asks := if empty then Load(book.asks, snapshot.asks) else book.asks;
    Book(ApplyChanges(bids, changes.bids), ApplyChanges(asks, changes.asks))
  }

  /** The two sides are edited independently: the asks are never touched
      by bid changes or by the snapshot, and a book with an entry on either
      side ignores the snapshot. */
  lemma UpdateSides(book: Book, snapshot: Snapshot, changes: Changes)
    ensures AfterUpdate(book, snapshot, changes).asks == ApplyChanges(book.asks, changes.asks)
    ensures |book.bids| > 0 || |book.asks| > 0 ==>
      AfterUpdate(book, snapshot, changes) == Book(ApplyChanges(book.bids, changes.bids), ApplyChanges(book.asks, changes.asks))
    ensures |book.bids| > 0 || |book.asks| > 0 ==>
      AfterUpdateIntended(book, snapshot, changes) == AfterUpdate(book, snapshot, changes)
  {
  }

  /** As written, a first update of an empty book with snapshot bids
      `{1: 2}` and asks `{3: 4}` and an empty message leaves the asks empty
      and puts the ask level among the bids. */
  lemma SnapshotAsksIntoBids()
    ensures var r := AfterUpdate(Book(map[], map[]), Snapshot([(1.0, 2.0)], [(3.0, 4.0)]), Changes([], []));
      r.bids == map[1.0 := 2.0, 3.0 := 4.0] && r.asks == map[]
  {
    assert [(3.0, 4.0)][..0] == [];
    assert [(1.0, 2.0)][..0] == [];
  }

  /** The corrected update fills each side of an empty book from the same
      side of the snapshot before applying the message. */
  lemma IntendedLoadsBothSides(snapshot: Snapshot, changes: Changes, p: real)
    ensures var r := AfterUpdateIntended(Book(map[], map[]), snapshot, changes);
      && r == Book(ApplyChanges(Load(map[], snapshot.bids), changes.bids), ApplyChanges(Load(map[], snapshot.asks), changes.asks))
      && (LastQuantity(changes.asks, p).None? && LastQuantity(snapshot.asks, p).Some? ==>
            p in r.asks && r.asks[p] == LastQuantity(snapshot.asks, p).value)
      && (LastQuantity(changes.bids, p).None? && LastQuantity(snapshot.bids, p).Some? ==>
            p in r.bids && r.bids[p] == LastQuantity(snapshot.bids, p).value)
  {
    LoadAt(map[], snapshot.asks, p);
    LoadAt(map[], snapshot.bids, p);
    ApplyChangesAt(Load(map[], snapshot.asks), changes.asks, p);
    ApplyChangesAt(Load(map[], snapshot.bids), changes.bids, p);
  }

  /** One `for` loop of the snapshot load: each level sets its price. */
  method LoadLevels(m: map<real, real>, levels: seq<Level>) returns (r: map<real, real>)
    ensures r == Load(m, levels)
  {
    r := m;
    for i := 0 to |levels|
      invariant r == Load(m, levels[..i])
    {
      assert levels[..i + 1][..i] == levels[..i];
      r := r[levels[i].0 := levels[i].1];
    }
    assert levels[..|levels|] == levels;
  }

  /** One `for` loop over the changes of a side: a positive quantity sets
      the price, any other deletes it when present. */
  method ApplyLevels(m: map<real, real>, cs: seq<Level>) returns (r: map<real, real>)
    ensures r == ApplyChanges(m, cs)
  {
    r := m;
    for i := 0 to |cs|
      invariant r == ApplyChanges(m, cs[..i])
    {
      assert cs[..i + 1][..i] == cs[..i];
      var (price, quantity) := cs[i];
      if quantity > 0.0 {
        r := r[price := quantity];
      } else if price in r {
        r := r - {price};
      }
    }
    assert cs[..|cs|] == cs;
  }

  class Streamer {
    var orderBooks: map<string, Book>

    constructor ()
      ensures orderBooks == map[]
    {
      orderBooks := map[];
    }

    /** The book `add_order_book(symbol, ...)` registers: both sides
        empty. */
    method AddOrderBook(symbol: string)
      modifies this
      ensures orderBooks == old(orderBooks)[symbol := Book(map[], map[])]
    {
      orderBooks := orderBooks[symbol := Book(map[], map[])];
    }

    /** `__update_order_book`: KeyError for a symbol without a book;
        otherwise only that symbol's book changes, as `AfterUpdate` says. */
    method UpdateOrderBook(symbol: string, snapshot: Snapshot, changes: Changes) returns (failure: Option<Failure>)
      modifies this
      ensures symbol !in old(orderBooks) ==> failure == Some(KeyError) && orderBooks == old(orderBooks)
      ensures symbol in old(orderBooks) ==>
        failure == None && orderBooks == old(orderBooks)[symbol := AfterUpdate(old(orderBooks)[symbol], snapshot, changes)]
    {
      if symbol !in orderBooks {
        return Some(KeyError);
      }
      var book := orderBooks[symbol];
      var bids := book.bids;
      if |book.bids| == 0 && |book.asks| == 0 {
        bids := LoadLevels(bids, snapshot.bids);
        bids := LoadLevels(bids, snapshot.asks);
      }
      bids := ApplyLevels(bids, changes.bids);
      var asks := ApplyLevels(book.asks, changes.asks);
      orderBooks := orderBooks[symbol := Book(bids, asks)];
      return None;
    }

    /** `get_order_book(symbol)`; KeyError for a symbol without a book. */
    method GetOrderBook(symbol: string) returns (r: Result<Book>)
      ensures symbol in orderBooks ==> r == Ok(orderBooks[symbol])
      ensures symbol !in orderBooks ==> r == Err(KeyError)
    {
      if symbol in orderBooks {
        return Ok(orderBooks[symbol]);
      }
      return Err(KeyError);
    }
  }

  // ---------------------------------------------------------------------
  // Query parameters

  /** One entry of the `query_params` dict, in insertion order; `None` is
      Python's `None`, other values are kept as the strings `urlencode`
      writes. */
  type Param = (string, Option<string>)

  predicate HasKey(d: seq<Param>, k: string)
  {
    exists i :: 0 <= i < |d| && d[i].0 == k
  }

  /** A dict never holds a key twice. */
  predicate UniqueKeys(d: seq<Param>)
  {
    forall i, j :: 0 <= i < j < |d| ==> d[i].0 != d[j].0
  }

  /** `d[k] = v`: a present key keeps its place, a new one goes last. */
  function DictSet(d: seq<Param>, k: string, v: Option<string>): (r: seq<Param>)
    ensures !HasKey(d, k) ==> r == d + [(k, v)]
    ensures HasKey(d, k) ==> |r| == |d| && forall i :: 0 <= i < |d| ==> r[i] == if d[i].0 == k then (k, v) else d[i]
    ensures HasKey(r, k)
    ensures forall e :: e in r ==> e in d || e == (k, v)
  {
    if HasKey(d, k) then seq(|d|, i requires 0 <= i < |d| => if d[i].0 == k then (k, v) else d[i])
    else
      var r := d + [(k, v)];
      assert r[|d|] == (k, v);
      r
  }

  /** `d[k]`; `None` where Python raises KeyError. */
  function Lookup(d: seq<Param>, k: string): Option<Option<string>>
  {
    if d == [] then None else if d[0].0 == k then Some(d[0].1) else Lookup(d[1..], k)
  }

  /** `list(d.keys())`: the keys in dict order. */
  function KeyList(d: seq<Param>): (r: seq<string>)
    ensures |r| == |d| && forall i :: 0 <= i < |d| ==> r[i] == d[i].0
  {
    seq(|d|, i requires 0 <= i < |d| => d[i].0)
  }

  /** `del d[k]`. */
  function DictDelete(d: seq<Param>, k: string): seq<Param>
  {
    if d == [] then [] else if d[0].0 == k then DictDelete(d[1..], k) else [d[0]] + DictDelete(d[1..], k)
  }

  /** The dict without its `None`-valued entries, in the same order. */
  function StripNone(d: seq<Param>): (r: seq<Param>)
    ensures forall e :: e in r <==> e in d && e.1.Some?
  {
    if d == [] then []
    else
      var rest := StripNone(d[..|d| - 1]);
      assert forall e :: e in d <==> e in d[..|d| - 1] || e == d[|d| - 1];
      if d[|d| - 1].1.Some? then rest + [d[|d| - 1]] else rest
  }

  lemma {:induction false} LookupFirst(a: seq<Param>, e: Param, b: seq<Param>)
    requires !HasKey(a, e.0)
    ensures Lookup(a + [e] + b, e.0) == Some(e.1)
  {
    if a != [] {
      assert (a + [e] + b)[1..] == a[1..] + [e] + b;
      assert a[0].0 != e.0;
      assert !HasKey(a[1..], e.0) by {
        forall i | 0 <= i < |a| - 1 ensures a[1..][i].0 != e.0 {
          assert a[1..][i] == a[i + 1];
        }
      }
      LookupFirst(a[1..], e, b);
    }
  }

  lemma {:induction false} DeleteAbsent(d: seq<Param>, k: string)
    requires !HasKey(d, k)
    ensures DictDelete(d, k) == d
  {
    if d != [] {
      assert d[0].0 != k;
      assert !HasKey(d[1..], k) by {
        forall i | 0 <= i < |d| - 1 ensures d[1..][i].0 != k {
          assert d[1..][i] == d[i + 1];
        }
      }
      DeleteAbsent(d[1..], k);
    }
  }

  lemma {:induction false} DeleteAppend(a: seq<Param>, b: seq<Param>, k: string)
    ensures DictDelete(a + b, k) == DictDelete(a, k) + DictDelete(b, k)
  {
    if a != [] {
      assert (a + b)[1..] == a[1..] + b;
      DeleteAppend(a[1..], b, k);
    } else {
      assert a + b == b;
    }
  }

  /** Stripping adds no key. */
  lemma StripNoneNoKey(d: seq<Param>, k: string)
    requires !HasKey(d, k)
    ensures !HasKey(StripNone(d), k)
  {
    var s := StripNone(d);
    forall i | 0 <= i < |s| ensures s[i].0 != k {
      assert s[i] in s;
    }
  }

  /** One turn of the stripping loop: the key at position `i` of the
      original dict is found with its original value, deleting it when
      `None` leaves the stripped prefix followed by the untouched rest. */
  lemma StripStep(d: seq<Param>, i: int)
    requires UniqueKeys(d) && 0 <= i < |d|
    ensures var cur := StripNone(d[..i]) + d[i..];
      && Lookup(cur, d[i].0) == Some(d[i].1)
      && (d[i].1.None? ==> DictDelete(cur, d[i].0) == StripNone(d[..i + 1]) + d[i + 1..])
      && (d[i].1.Some? ==> cur == StripNone(d[..i + 1]) + d[i + 1..])
  {
    var a := StripNone(d[..i]);
    var e := d[i];
    var b := d[i + 1..];
    assert d[i..] == [e] + b;
    assert d[..i + 1][..i] == d[..i];
    assert !HasKey(d[..i], e.0) by {
      forall j | 0 <= j < i ensures d[..i][j].0 != e.0 {
        assert d[..i][j] == d[j];
      }
    }
    StripNoneNoKey(d[..i], e.0);
    assert a + d[i..] == a + [e] + b;
    LookupFirst(a, e, b);
    if e.1.None? {
      assert !HasKey(b, e.0) by {
        forall j | 0 <= j < |b| ensures b[j].0 != e.0 {
          assert b[j] == d[i + 1 + j];
        }
      }
      DeleteAppend(a, [e] + b, e.0);
      DeleteAppend([e], b, e.0);
      DeleteAbsent(a, e.0);
      DeleteAbsent(b, e.0);
      assert DictDelete([e], e.0) == [];
    }
  }

  /** The dict's state after `_geturl_json` prepared it: `None` values
      deleted; for a signed call `timestamp` set to the clock reading and
      `signature` to the signature of the dict as it then is. */
  function Prepare(d: seq<Param>, sign: bool, timestamp: nat, signature: seq<Param> -> string): (r: seq<Param>)
    ensures forall e :: e in r ==> e.1.Some?
    ensures sign ==> HasKey(r, "signature")
    ensures !sign ==> forall e :: e in r <==> e in d && e.1.Some?
  {
    var s := StripNone(d);
    if !sign then s
    else
      var t := DictSet(s, "timestamp", Some(NatToString(timestamp)));
      DictSet(t, "signature", Some(signature(t)))
  }

  /** The dict the signature is computed over. */
  function SignedQuery(d: seq<Param>, timestamp: nat): (r: seq<Param>)
    ensures forall e :: e in r ==> e.1.Some?
    ensures HasKey(r, "timestamp")
  {
    DictSet(StripNone(d), "timestamp", Some(NatToString(timestamp)))
  }

  /** Unsigned calls only drop the `None` values; signed calls on a dict
      without the two keys append exactly `timestamp` and `signature`, the
      signature taken over the stripped parameters and the timestamp. */
  lemma PrepareAddsTwo(d: seq<Param>, timestamp: nat, signature: seq<Param> -> string)
    requires !HasKey(d, "timestamp") && !HasKey(d, "signature")
    ensures Prepare(d, false, timestamp, signature) == StripNone(d)
    ensures var ts := Some(NatToString(timestamp));
      && SignedQuery(d, timestamp) == StripNone(d) + [("timestamp", ts)]
      && Prepare(d, true, timestamp, signature)
           == StripNone(d) + [("timestamp", ts), ("signature", Some(signature(StripNone(d) + [("timestamp", ts)])))]
  {
    var s := StripNone(d);
    StripNoneNoKey(d, "timestamp");
    StripNoneNoKey(d, "signature");
    var t := s + [("timestamp", Some(NatToString(timestamp)))];
    assert "timestamp"[0] != "signature"[0];
    assert !HasKey(t, "signature") by {
      forall j | 0 <= j < |t| ensures t[j].0 != "signature" {
        if j < |s| {
          assert t[j] == s[j];
        }
      }
    }
  }

  /** The default `query_params={}` is one dict shared by every call that
      omits it, and `account_info` signs it. As written the first such call
      leaves `timestamp` and `signature` in the shared dict, so the next
      signed call signs a query that still holds the old signature, and
      unsigned calls send both. */
  lemma SharedDefaultAsWritten(t1: nat, t2: nat, signature: seq<Param> -> string)
    ensures var first := Prepare([], true, t1, signature);
      && first == [("timestamp", Some(NatToString(t1))), ("signature", Some(signature([("timestamp", Some(NatToString(t1)))])))]
      && SignedQuery(first, t2) == [("timestamp", Some(NatToString(t2))), first[1]]
      && HasKey(SignedQuery(first, t2), "signature")
      && Prepare(first, false, t2, signature) == first
  {
    var ts1 := Some(NatToString(t1));
    PrepareAddsTwo([], t1, signature);
    var first := Prepare([], true, t1, signature);
    assert StripNone(first) == first by {
      assert first[..1] == [("timestamp", ts1)] && first[..1][..0] == [];
    }
    assert "timestamp"[0] != "signature"[0];
    assert HasKey(StripNone(first), "timestamp") by {
      assert first[0].0 == "timestamp";
    }
    assert SignedQuery(first, t2) == DictSet(first, "timestamp", Some(NatToString(t2)));
    ResetTimestamp(first, Some(NatToString(t2)));
  }

  /** Setting `timestamp` again in a dict that begins with it overwrites
      that entry in place. */
  lemma ResetTimestamp(d: seq<Param>, v: Option<string>)
    requires |d| == 2 && d[0].0 == "timestamp" && d[1].0 != "timestamp"
    ensures DictSet(d, "timestamp", v) == [("timestamp", v), d[1]]
  {
    assert HasKey(d, "timestamp") by {
      assert d[0].0 == "timestamp";
    }
  }

  /** With a fresh empty dict per call, a signed call without parameters
      signs exactly the timestamp, whatever came before. */
  lemma FreshDefaultIntended(timestamp: nat, signature: seq<Param> -> string)
    ensures var ts := Some(NatToString(timestamp));
      && SignedQuery([], timestamp) == [("timestamp", ts)]
      && !HasKey(SignedQuery([], timestamp), "signature")
      && Prepare([], true, timestamp, signature) == [("timestamp", ts), ("signature", Some(signature([("timestamp", ts)])))]
  {
    PrepareAddsTwo([], timestamp, signature);
    assert "timestamp"[0] != "signature"[0];
  }

  /** The `query_params` dict `_geturl_json` edits in place. */
  class QueryParams {
    var entries: seq<Param>

    constructor (entries: seq<Param>)
      ensures this.entries == entries
    {
      this.entries := entries;
    }

    /** The loop over `list(query_params.keys())` deleting `None` values. */
    method StripNoneValues()
      requires UniqueKeys(entries)
      modifies this
      ensures entries == StripNone(old(entries))
    {
      ghost var d := entries;
      var keys := KeyList(entries);
      assert d[..0] == [] && d[0..] == d;
      for i := 0 to |keys|
        invariant entries == StripNone(d[..i]) + d[i..]
      {
        StripStep(d, i);
        var key := keys[i];
        assert key == d[i].0;
        var value := Lookup(entries, key);
        if value == Some(None) {
          assert d[i].1.None?;
          entries := DictDelete(entries, key);
        } else {
          assert d[i].1.Some?;
        }
      }
      assert d[..|d|] == d && d[|d|..] == [];
    }

    /** The `sign` branch: set `timestamp`, then `signature` over the dict
        as it then is. */
    method AddSignature(timestamp: nat, signature: seq<Param> -> string)
      modifies this
      ensures var t := DictSet(old(entries), "timestamp", Some(NatToString(timestamp)));
        entries == DictSet(t, "signature", Some(signature(t)))
    {
      entries := DictSet(entries, "timestamp", Some(NatToString(timestamp)));
      entries := DictSet(entries, "signature", Some(signature(entries)));
    }

    /** The parameter steps of `_geturl_json`: the dict ends as `Prepare`
        says. */
    method PrepareParams(sign: bool, timestamp: nat, signature: seq<Param> -> string)
      requires UniqueKeys(entries)
      modifies this
      ensures entries == Prepare(old(entries), sign, timestamp, signature)
    {
      StripNoneValues();
      if sign {
        AddSignature(timestamp, signature);
      }
    }
  }
}
