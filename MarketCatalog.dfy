/** The market catalog of yat/assetlist: validating a whitelist against the
    exchange's market symbols and a blacklist, and deriving, for a portfolio
    base asset, the markets that price every whitelisted asset (directly, or
    through a BTC bridge market plus the BTC/base link). */
module MarketCatalog {
  import opened Common

  /** The two fields of a ccxt market description the catalog reads. */
  datatype MarketInfo = MarketInfo(base: string, quote: string)

  /** One item of the exchange's `markets` dict: symbol and description.
      A `seq` keeps the dict's insertion order, which the build iterates in. */
  datatype Market = Market(symbol: string, info: MarketInfo)

  type Markets = seq<Market>

  const Bridge: string := "BTC"

  function Symbols(ms: Markets): set<string>
  {
    set m | m in ms :: m.symbol
  }

  // ---------------------------------------------------------------------
  // str.split('/')

  /** Python's `s.split('/')`: the pieces between separators, in order. */
  function Split(s: string): (r: seq<string>)
    ensures |r| >= 1
  {
    if s == [] then [""]
    else
      var rest := Split(s[1..]);
      if s[0] == '/' then [""] + rest else [[s[0]] + rest[0]] + rest[1..]
  }

  /** `'/'.join(parts)`. */
  function Join(parts: seq<string>): string
    requires |parts| >= 1
  {
    if |parts| == 1 then parts[0] else parts[0] + "/" + Join(parts[1..])
  }

  /** Splitting and joining again gives back the symbol. */
  lemma {:induction false} JoinSplit(s: string)
    ensures Join(Split(s)) == s
  {
    if s != [] {
      var rest := Split(s[1..]);
      JoinSplit(s[1..]);
      if s[0] == '/' {
        assert Split(s)[1..] == rest;
      } else {
        var r := Split(s);
        assert r[0] == [s[0]] + rest[0];
        if |rest| == 1 {
          assert |r| == 1;
        } else {
          assert r[1..] == rest[1..];
          assert Join(rest) == rest[0] + "/" + Join(rest[1..]);
        }
      }
    }
  }

  /** No piece of a split contains the separator. */
  lemma {:induction false} SplitPiecesHaveNoSlash(s: string)
    ensures forall i :: 0 <= i < |Split(s)| ==> '/' !in Split(s)[i]
  {
    if s != [] {
      SplitPiecesHaveNoSlash(s[1..]);
      var rest := Split(s[1..]);
      var r := Split(s);
      if s[0] != '/' {
        assert forall i :: 1 <= i < |r| ==> r[i] == rest[i];
        assert r[0] == [s[0]] + rest[0];
      }
    }
  }

  lemma {:induction false} SplitNoSlash(s: string)
    requires '/' !in s
    ensures Split(s) == [s]
  {
    if s != [] {
      assert forall c :: c in s[1..] ==> c in s;
      SplitNoSlash(s[1..]);
      assert [s[0]] + s[1..] == s;
    }
  }

  /** A symbol written "base/quote" splits into its two sides. */
  lemma {:induction false} SplitPair(a: string, b: string)
    requires '/' !in a && '/' !in b
    ensures Split(a + "/" + b) == [a, b]
  {
    var s := a + "/" + b;
    if a == [] {
      assert s[1..] == b;
      SplitNoSlash(b);
    } else {
      assert s[1..] == a[1..] + "/" + b;
      SplitPair(a[1..], b);
      assert [a[0]] + a[1..] == a;
    }
  }

  /** Every asset named on either side of some market symbol
      (`sanitized_all_assetslist`). */
  function Sides(ms: Markets): set<string>
  {
    set m, a | m in ms && a in Split(m.symbol) :: a
  }

  // ---------------------------------------------------------------------
  // _validate_assetlist

  /** The assets `_validate_assetlist` keeps, as a set. */
  function Sanitized(ms: Markets, blacklist: seq<string>, assets: seq<string>): set<string>
  {
    set a | a in assets && a !in blacklist && a in Sides(ms)
  }

  lemma SidesMembers(ms: Markets, a: string)
    ensures a in Sides(ms) <==> exists m :: m in ms && a in Split(m.symbol)
  {
    if exists m :: m in ms && a in Split(m.symbol) {
      var m :| m in ms && a in Split(m.symbol);
      assert a in Sides(ms);
    }
  }

  /** `_validate_assetlist`: keeps exactly the assets that are not
      blacklisted and appear as a '/'-separated side of some market symbol;
      the list comes out of a set, so it has no duplicates and an
      unspecified order. */
  method ValidateAssetList(ms: Markets, blacklist: seq<string>, assets: seq<string>)
    returns (r: seq<string>)
    ensures forall a :: a in r <==>
      a in assets && a !in blacklist && exists m :: m in ms && a in Split(m.symbol)
    ensures Elements(r) == Sanitized(ms, blacklist, assets)
    ensures NoDuplicates(r) && |r| == |Sanitized(ms, blacklist, assets)|
  {
    var all := Sides(ms);
    var kept: set<string> := {};
    for i := 0 to |assets|
      invariant kept == set a | a in assets[..i] && a !in blacklist && a in all
    {
      var asset := assets[i];
      assert assets[..i + 1] == assets[..i] + [asset];
      if asset in blacklist || asset !in all {
        continue;
      }
      kept := kept + {asset};
    }
    assert assets[..|assets|] == assets;
    r := ListOf(kept);
    forall a
      ensures a in r <==> a in assets && a !in blacklist && exists m :: m in ms && a in Split(m.symbol)
    {
      SidesMembers(ms, a);
      assert a in r <==> a in Elements(r);
    }
  }

  /** Validating an already validated list changes nothing. */
  lemma ValidateIdempotent(ms: Markets, blacklist: seq<string>, assets: seq<string>, r: seq<string>)
    requires Elements(r) == Sanitized(ms, blacklist, assets)
    ensures Sanitized(ms, blacklist, r) == Elements(r)
  {
  }

  // ---------------------------------------------------------------------
  // _build_portfolio_base_markets

  /** Python's `list.remove(x)`: drops the first occurrence. */
  function RemoveFirst(s: seq<string>, x: string): (r: seq<string>)
    ensures |s| - 1 <= |r| <= |s|
  {
    if s == [] then []
    else if s[0] == x then s[1..]
    else [s[0]] + RemoveFirst(s[1..], x)
  }

  /** `remove` takes away one occurrence of `x`, if there is one, and
      nothing else. */
  lemma {:induction false} RemoveFirstMultiset(s: seq<string>, x: string)
    ensures multiset(RemoveFirst(s, x)) == multiset(s) - multiset{x}
    ensures x in s ==> |RemoveFirst(s, x)| == |s| - 1
    ensures x !in s ==> RemoveFirst(s, x) == s
  {
    if s != [] {
      assert s == [s[0]] + s[1..];
      if s[0] != x {
        RemoveFirstMultiset(s[1..], x);
      }
    }
  }

  /** State of the first loop: `pbm_list`, `pa_list` and what is left of
      the whitelist list object after the in-place removals. */
  datatype DirectState = DirectState(pbm: set<string>, pa: set<string>, rest: seq<string>)

  /** One iteration of the first loop over `markets.items()`. */
  function DirectStep(st: DirectState, m: Market, base: string): (r: DirectState)
    ensures |st.rest| - 1 <= |r.rest| <= |st.rest|
    ensures st.pa <= r.pa && st.pbm <= r.pbm
  {
    if m.info.base in st.rest && m.info.quote == base then
      DirectState(st.pbm + {m.symbol}, st.pa + {m.info.base}, RemoveFirst(st.rest, m.info.base))
    else if m.info.quote in st.rest && m.info.base == base then
      DirectState(st.pbm + {m.symbol}, st.pa + {m.info.quote}, RemoveFirst(st.rest, m.info.quote))
    else st
  }

  /** The first loop run over the markets in dict order. */
  function DirectPass(ms: Markets, wl: seq<string>, base: string): (r: DirectState)
    ensures |wl| - |ms| <= |r.rest| <= |wl|
    ensures |r.pbm| <= |ms|
  {
    if ms == [] then DirectState({}, {}, wl)
    else DirectStep(DirectPass(ms[..|ms| - 1], wl, base), ms[|ms| - 1], base)
  }

  /** The pass over one more market is one more step. */
  lemma DirectPassPrefix(ms: Markets, wl: seq<string>, base: string, k: nat)
    requires k < |ms|
    ensures DirectPass(ms[..k + 1], wl, base) == DirectStep(DirectPass(ms[..k], wl, base), ms[k], base)
  {
    assert ms[..k + 1][..k] == ms[..k];
  }

  /** The bridge market an unresolved asset gets: `a/BTC`, else `BTC/a`. */
  function BridgeMarket(ms: Markets, a: string): Option<string>
  {
    if a + "/" + Bridge in Symbols(ms) then Some(a + "/" + Bridge)
    else if Bridge + "/" + a in Symbols(ms) then Some(Bridge + "/" + a)
    else None
  }

  function BridgeMarkets(ms: Markets, rest: seq<string>): (r: set<string>)
    ensures r <= Symbols(ms)
    ensures forall m :: m in r ==> exists a :: a in rest && (m == a + "/" + Bridge || m == Bridge + "/" + a)
  {
    set a | a in rest && BridgeMarket(ms, a).Some? :: BridgeMarket(ms, a).value
  }

  function BridgedAssets(ms: Markets, rest: seq<string>): set<string>
  {
    set a | a in rest && BridgeMarket(ms, a).Some?
  }

  /** The market linking BTC and the base asset, if the exchange lists one. */
  function LinkMarket(ms: Markets, base: string): (r: set<string>)
    ensures r <= Symbols(ms) && |r| <= 1
    ensures forall m :: m in r ==> m == base + "/" + Bridge || m == Bridge + "/" + base
    ensures r == {} <==> base + "/" + Bridge !in Symbols(ms) && Bridge + "/" + base !in Symbols(ms)
  {
    if base + "/" + Bridge in Symbols(ms) then {base + "/" + Bridge}
    else if Bridge + "/" + base in Symbols(ms) then {Bridge + "/" + base}
    else {}
  }

  datatype BuildResult = BuildResult(markets: set<string>, assets: set<string>, remaining: seq<string>)

  /** What `_build_portfolio_base_markets(base)` computes from the markets
      and the whitelist: the market set, the asset set, and the whitelist
      list object as the in-place removals leave it. */
  function BaseMarkets(ms: Markets, wl: seq<string>, base: string): (r: BuildResult)
    ensures base in r.assets
  {
    var d := DirectPass(ms, wl, base);
    BuildResult(
      d.pbm + BridgeMarkets(ms, d.rest) + (if |d.rest| > 0 then LinkMarket(ms, base) else {}),
      d.pa + BridgedAssets(ms, d.rest) + {base},
      d.rest)
  }

  /** The first loop of `_build_portfolio_base_markets`: each market, in
      dict order, that joins a still-listed asset to the base resolves that
      asset and removes it from the whitelist list. */
  method DirectLoop(ms: Markets, wl: seq<string>, base: string) returns (d: DirectState)
    ensures d == DirectPass(ms, wl, base)
  {
    var pbm, pa, rest := {}, {}, wl;
    for i := 0 to |ms|
      invariant DirectPass(ms[..i], wl, base) == DirectState(pbm, pa, rest)
    {
      var m := ms[i];
      assert ms[..i + 1][..i] == ms[..i];
      if m.info.base in rest && m.info.quote == base {
        pbm := pbm + {m.symbol};
        pa := pa + {m.info.base};
        rest := RemoveFirst(rest, m.info.base);
      } else if m.info.quote in rest && m.info.base == base {
        pbm := pbm + {m.symbol};
        pa := pa + {m.info.quote};
        rest := RemoveFirst(rest, m.info.quote);
      }
    }
    assert ms[..|ms|] == ms;
    d := DirectState(pbm, pa, rest);
  }

  /** The second loop: each asset still listed gets its BTC bridge market. */
  method BridgeLoop(ms: Markets, rest: seq<string>) returns (markets: set<string>, assets: set<string>)
    ensures markets == BridgeMarkets(ms, rest) && assets == BridgedAssets(ms, rest)
  {
    var symbols := Symbols(ms);
    markets, assets := {}, {};
    for j := 0 to |rest|
      invariant assets == BridgedAssets(ms, rest[..j])
      invariant markets == BridgeMarkets(ms, rest[..j])
    {
      var a := rest[j];
      assert rest[..j + 1] == rest[..j] + [a];
      if a + "/" + Bridge in symbols {
        markets := markets + {a + "/" + Bridge};
        assets := assets + {a};
      } else if Bridge + "/" + a in symbols {
        markets := markets + {Bridge + "/" + a};
        assets := assets + {a};
      }
    }
    assert rest[..|rest|] == rest;
  }

  /** `_build_portfolio_base_markets`, on values: the market set, the asset
      set, and the whitelist as the in-place removals leave it. */
  method BuildPortfolioBaseMarkets(ms: Markets, wl: seq<string>, base: string)
    returns (pbm: set<string>, pa: set<string>, rest: seq<string>)
    ensures BaseMarkets(ms, wl, base) == BuildResult(pbm, pa, rest)
  {
    var d := DirectLoop(ms, wl, base);
    pbm, pa, rest := d.pbm, d.pa, d.rest;
    if |rest| > 0 {
      var bridgeMarkets, bridged := BridgeLoop(ms, rest);
      pbm := pbm + bridgeMarkets;
      pa := pa + bridged;
      var symbols := Symbols(ms);
      if base + "/" + Bridge in symbols {
        pbm := pbm + {base + "/" + Bridge};
      } else if Bridge + "/" + base in symbols {
        pbm := pbm + {Bridge + "/" + base};
      }
    } else {
      assert BridgeMarkets(ms, rest) == {} && BridgedAssets(ms, rest) == {};
    }
    pa := pa + {base};
  }

  // ---------------------------------------------------------------------
  // What the build promises, proved about BaseMarkets.

  /** Market `m` joins asset `a` and the base asset, in either direction. */
  predicate Joins(m: Market, base: string, a: string)
  {
    (m.info.base == a && m.info.quote == base) || (m.info.quote == a && m.info.base == base)
  }

  /** The exchange lists a market between `a` and the base asset. */
  ghost predicate HasDirect(ms: Markets, base: string, a: string)
  {
    exists m :: m in ms && Joins(m, base, a)
  }

  /** `s` is the symbol of a market between some whitelisted asset and the
      base asset. */
  ghost predicate IsDirectMarket(ms: Markets, wl: seq<string>, base: string, s: string)
  {
    exists m :: m in ms && m.symbol == s &&
      ((m.info.base in wl && m.info.quote == base) || (m.info.quote in wl && m.info.base == base))
  }

  ghost predicate IsBridgeMarket(ms: Markets, wl: seq<string>, s: string)
  {
    s in Symbols(ms) && exists a :: a in wl && (s == a + "/" + Bridge || s == Bridge + "/" + a)
  }

  ghost predicate IsLinkMarket(ms: Markets, base: string, s: string)
  {
    s in Symbols(ms) && (s == base + "/" + Bridge || s == Bridge + "/" + base)
  }

  /** Market `s` names asset `a`: its description has `a` as base or quote,
      or it is one of `a`'s bridge symbols. */
  ghost predicate Covers(ms: Markets, s: string, a: string)
  {
    (exists m :: m in ms && m.symbol == s && (m.info.base == a || m.info.quote == a))
    || s == a + "/" + Bridge || s == Bridge + "/" + a
  }

  /** Some market of `pbm` names asset `a`. */
  ghost predicate CoveredBy(ms: Markets, pbm: set<string>, a: string)
  {
    exists s :: s in pbm && Covers(ms, s, a)
  }

  lemma RemoveFirstMembers(s: seq<string>, x: string, a: string)
    ensures a in RemoveFirst(s, x) ==> a in s
    ensures a in s && a != x ==> a in RemoveFirst(s, x)
  {
    RemoveFirstMultiset(s, x);
    assert a in RemoveFirst(s, x) <==> a in multiset(RemoveFirst(s, x));
    assert a in s <==> a in multiset(s);
  }

  lemma {:induction false} NoDuplicatesCount(t: seq<string>, x: string)
    requires NoDuplicates(t)
    ensures multiset(t)[x] <= 1
  {
    if t != [] {
      assert t == [t[0]] + t[1..];
      NoDuplicatesCount(t[1..], x);
      if t[0] == x {
        assert x !in t[1..];
        assert multiset(t[1..])[x] == 0;
      }
    }
  }

  lemma NoDuplicatesSub(s: seq<string>, t: seq<string>)
    requires NoDuplicates(t) && multiset(s) <= multiset(t)
    ensures NoDuplicates(s)
  {
    forall i, j | 0 <= i < j < |s| ensures s[i] != s[j] {
      if s[i] == s[j] {
        var x := s[i];
        assert s == s[..i] + [x] + s[i + 1..];
        assert s[i + 1..] == s[i + 1..j] + [x] + s[j + 1..];
        assert multiset(s)[x] >= 2;
        NoDuplicatesCount(t, x);
        assert false;
      }
    }
  }

  lemma RemoveFirstDistinct(s: seq<string>, x: string)
    requires NoDuplicates(s)
    ensures x !in RemoveFirst(s, x)
  {
    NoDuplicatesCount(s, x);
    RemoveFirstMultiset(s, x);
    assert multiset(RemoveFirst(s, x))[x] == 0;
  }

  /** The whitelist list only shrinks during the first loop. */
  lemma {:induction false} DirectRestSub(ms: Markets, wl: seq<string>, base: string)
    ensures multiset(DirectPass(ms, wl, base).rest) <= multiset(wl)
  {
    if ms != [] {
      DirectRestSub(ms[..|ms| - 1], wl, base);
      StepRestSub(DirectPass(ms[..|ms| - 1], wl, base), ms[|ms| - 1], base);
    }
  }

  /** One step of the first loop only shrinks the whitelist list. */
  lemma StepRestSub(st: DirectState, m: Market, base: string)
    ensures multiset(DirectStep(st, m, base).rest) <= multiset(st.rest)
  {
    if m.info.base in st.rest && m.info.quote == base {
      RemoveFirstMultiset(st.rest, m.info.base);
    } else if m.info.quote in st.rest && m.info.base == base {
      RemoveFirstMultiset(st.rest, m.info.quote);
    }
  }

  lemma DirectRestInWhitelist(ms: Markets, wl: seq<string>, base: string, a: string)
    requires a in DirectPass(ms, wl, base).rest
    ensures a in wl
  {
    DirectRestSub(ms, wl, base);
    assert a in multiset(DirectPass(ms, wl, base).rest);
  }

  /** A whitelisted asset is either still listed or resolved. */
  lemma {:induction false} DirectCovered(ms: Markets, wl: seq<string>, base: string)
    ensures var d := DirectPass(ms, wl, base);
      forall a :: a in wl ==> a in d.rest || a in d.pa
  {
    if ms != [] {
      var m := ms[|ms| - 1];
      DirectCovered(ms[..|ms| - 1], wl, base);
      var st := DirectPass(ms[..|ms| - 1], wl, base);
      forall a | a in wl
        ensures a in DirectPass(ms, wl, base).rest || a in DirectPass(ms, wl, base).pa
      {
        RemoveFirstMembers(st.rest, m.info.base, a);
        RemoveFirstMembers(st.rest, m.info.quote, a);
      }
    }
  }

  /** A resolved asset is whitelisted and has a direct market. */
  lemma {:induction false} DirectPaSound(ms: Markets, wl: seq<string>, base: string)
    ensures forall a :: a in DirectPass(ms, wl, base).pa ==> a in wl && HasDirect(ms, base, a)
  {
    if ms != [] {
      var init, m := ms[..|ms| - 1], ms[|ms| - 1];
      assert ms == init + [m];
      DirectPaSound(init, wl, base);
      var st := DirectPass(init, wl, base);
      var d := DirectPass(ms, wl, base);
      forall a | a in d.pa
        ensures a in wl && HasDirect(ms, base, a)
      {
        if a in st.pa {
          var w :| w in init && Joins(w, base, a);
          assert w in ms;
        } else {
          DirectRestInWhitelist(init, wl, base, a);
          assert Joins(m, base, a);
        }
      }
    }
  }

  /** A whitelisted asset with a direct market is resolved. */
  lemma {:induction false} DirectPaComplete(ms: Markets, wl: seq<string>, base: string)
    ensures forall a :: a in wl && HasDirect(ms, base, a) ==> a in DirectPass(ms, wl, base).pa
  {
    if ms != [] {
      var init, m := ms[..|ms| - 1], ms[|ms| - 1];
      assert ms == init + [m];
      DirectPaComplete(init, wl, base);
      DirectCovered(init, wl, base);
      var d := DirectPass(ms, wl, base);
      forall a | a in wl && HasDirect(ms, base, a)
        ensures a in d.pa
      {
        var w :| w in ms && Joins(w, base, a);
        if w != m {
          assert w in init;
          assert HasDirect(init, base, a);
        }
      }
    }
  }

  /** Every market of the first loop is a direct market. */
  lemma {:induction false} DirectPbmSound(ms: Markets, wl: seq<string>, base: string)
    ensures forall s :: s in DirectPass(ms, wl, base).pbm ==> IsDirectMarket(ms, wl, base, s)
  {
    if ms != [] {
      var init, m := ms[..|ms| - 1], ms[|ms| - 1];
      assert ms == init + [m];
      DirectPbmSound(init, wl, base);
      var st := DirectPass(init, wl, base);
      var d := DirectPass(ms, wl, base);
      forall s | s in d.pbm
        ensures IsDirectMarket(ms, wl, base, s)
      {
        if s in st.pbm {
          var w :| w in init && w.symbol == s &&
            ((w.info.base in wl && w.info.quote == base) || (w.info.quote in wl && w.info.base == base));
          assert w in ms;
        } else if m.info.base in st.rest && m.info.quote == base {
          DirectRestInWhitelist(init, wl, base, m.info.base);
        } else {
          DirectRestInWhitelist(init, wl, base, m.info.quote);
        }
      }
    }
  }

  /** Every resolved asset is named by a market of the first loop. */
  lemma {:induction false} DirectPaCovered(ms: Markets, wl: seq<string>, base: string)
    ensures forall a :: a in DirectPass(ms, wl, base).pa ==> CoveredBy(ms, DirectPass(ms, wl, base).pbm, a)
  {
    if ms != [] {
      var init, m := ms[..|ms| - 1], ms[|ms| - 1];
      assert ms == init + [m];
      DirectPaCovered(init, wl, base);
      var st := DirectPass(init, wl, base);
      var d := DirectPass(ms, wl, base);
      forall a | a in d.pa
        ensures CoveredBy(ms, d.pbm, a)
      {
        if a in st.pa {
          assert CoveredBy(init, st.pbm, a);
          var s :| s in st.pbm && Covers(init, s, a);
          if s != a + "/" + Bridge && s != Bridge + "/" + a {
            var w :| w in init && w.symbol == s && (w.info.base == a || w.info.quote == a);
            assert w in ms;
          }
          assert s in d.pbm && Covers(ms, s, a);
        } else {
          assert m.symbol in d.pbm && Covers(ms, m.symbol, a);
        }
      }
    }
  }

  /** A market added to the end joins `a` to the base or not. */
  lemma HasDirectSnoc(init: Markets, m: Market, base: string, a: string)
    ensures HasDirect(init + [m], base, a) <==> HasDirect(init, base, a) || Joins(m, base, a)
  {
    if HasDirect(init + [m], base, a) {
      var w :| w in init + [m] && Joins(w, base, a);
      if w != m {
        assert w in init;
      }
    }
    if HasDirect(init, base, a) {
      var w :| w in init && Joins(w, base, a);
      assert w in init + [m];
    }
    if Joins(m, base, a) {
      assert m in init + [m];
    }
  }

  /** One step of the first loop removes from a duplicate-free list exactly
      the asset the market joins to the base, if listed. */
  lemma StepRest(st: DirectState, m: Market, base: string, a: string)
    requires NoDuplicates(st.rest)
    ensures a in DirectStep(st, m, base).rest <==> a in st.rest && !Joins(m, base, a)
  {
    if m.info.base in st.rest && m.info.quote == base {
      RemoveFirstMembers(st.rest, m.info.base, a);
      RemoveFirstDistinct(st.rest, m.info.base);
    } else if m.info.quote in st.rest && m.info.base == base {
      RemoveFirstMembers(st.rest, m.info.quote, a);
      RemoveFirstDistinct(st.rest, m.info.quote);
    }
  }

  /** With a duplicate-free whitelist, exactly the assets that have no
      direct market stay in the whitelist list object. */
  lemma {:induction false} DirectPassRemoves(ms: Markets, wl: seq<string>, base: string)
    requires NoDuplicates(wl)
    ensures forall a :: a in DirectPass(ms, wl, base).rest <==> a in wl && !HasDirect(ms, base, a)
  {
    if ms != [] {
      var init, m := ms[..|ms| - 1], ms[|ms| - 1];
      assert ms == init + [m];
      DirectPassRemoves(init, wl, base);
      DirectRestSub(init, wl, base);
      var st := DirectPass(init, wl, base);
      NoDuplicatesSub(st.rest, wl);
      forall a
        ensures a in DirectPass(ms, wl, base).rest <==> a in wl && !HasDirect(ms, base, a)
      {
        StepRest(st, m, base, a);
        HasDirectSnoc(init, m, base, a);
      }
    }
  }

  /** Every returned market is a direct market of a whitelisted asset, a
      BTC bridge market of one, or the BTC/base link. */
  lemma MarketKinds(ms: Markets, wl: seq<string>, base: string)
    ensures forall s :: s in BaseMarkets(ms, wl, base).markets ==>
      IsDirectMarket(ms, wl, base, s) || IsBridgeMarket(ms, wl, s) || IsLinkMarket(ms, base, s)
  {
    DirectPbmSound(ms, wl, base);
    var d := DirectPass(ms, wl, base);
    forall s | s in BridgeMarkets(ms, d.rest)
      ensures IsBridgeMarket(ms, wl, s)
    {
      var a :| a in d.rest && BridgeMarket(ms, a).Some? && BridgeMarket(ms, a).value == s;
      DirectRestInWhitelist(ms, wl, base, a);
    }
  }

  /** Every returned asset other than the base came from the whitelist and
      is named by some returned market. */
  lemma AssetsFromWhitelist(ms: Markets, wl: seq<string>, base: string)
    ensures var r := BaseMarkets(ms, wl, base);
      forall a :: a in r.assets && a != base ==>
        a in wl && exists s :: s in r.markets && Covers(ms, s, a)
  {
    DirectPaSound(ms, wl, base);
    DirectPaCovered(ms, wl, base);
    var d := DirectPass(ms, wl, base);
    var r := BaseMarkets(ms, wl, base);
    forall a | a in r.assets && a != base
      ensures a in wl && exists s :: s in r.markets && Covers(ms, s, a)
    {
      if a in d.pa {
        assert CoveredBy(ms, d.pbm, a);
        var s :| s in d.pbm && Covers(ms, s, a);
        assert s in r.markets;
      } else {
        assert a in d.rest && BridgeMarket(ms, a).Some?;
        DirectRestInWhitelist(ms, wl, base, a);
        var s := BridgeMarket(ms, a).value;
        assert s in BridgeMarkets(ms, d.rest);
        assert Covers(ms, s, a);
      }
    }
  }

  /** A whitelisted asset is in the result exactly when it is the base, has a
      direct market, or has a BTC bridge market. The others are dropped
      without an error. */
  lemma ResolvedIff(ms: Markets, wl: seq<string>, base: string)
    ensures forall a :: a in wl ==>
      (a in BaseMarkets(ms, wl, base).assets <==>
        a == base || HasDirect(ms, base, a) || BridgeMarket(ms, a).Some?)
  {
    DirectPaSound(ms, wl, base);
    DirectPaComplete(ms, wl, base);
    DirectCovered(ms, wl, base);
  }

  /** The BTC/base link is added only when some whitelisted asset was left
      unresolved by the direct pass; it is added whenever that happens and
      the exchange lists it. */
  lemma LinkOnlyWhenBridged(ms: Markets, wl: seq<string>, base: string)
    ensures var r := BaseMarkets(ms, wl, base);
      (r.remaining == [] ==> forall s :: s in r.markets ==> IsDirectMarket(ms, wl, base, s))
      && (r.remaining != [] ==> LinkMarket(ms, base) <= r.markets)
  {
    DirectPbmSound(ms, wl, base);
    var d := DirectPass(ms, wl, base);
    if d.rest == [] {
      assert BridgeMarkets(ms, d.rest) == {};
    }
  }

  /** The direct pass removes the resolved assets from the whitelist list
      object in place: what remains is part of the whitelist, and without
      duplicates it is exactly the assets lacking a direct market. */
  lemma RemainingWhitelist(ms: Markets, wl: seq<string>, base: string)
    ensures multiset(BaseMarkets(ms, wl, base).remaining) <= multiset(wl)
    ensures NoDuplicates(wl) ==>
      forall a :: a in BaseMarkets(ms, wl, base).remaining <==> a in wl && !HasDirect(ms, base, a)
  {
    DirectRestSub(ms, wl, base);
    if NoDuplicates(wl) {
      DirectPassRemoves(ms, wl, base);
    }
  }

  // ---------------------------------------------------------------------
  // StaticAssetList

  /** A Python list object, shared by reference: the whitelist the caller
      passes in is the very list the build removes assets from. */
  class StrList {
    var items: seq<string>

    constructor (items: seq<string>)
      ensures this.items == items
    {
      this.items := items;
    }
  }

  class StaticAssetList {
    const markets: Markets
    var whitelist: StrList
    const blacklist: seq<string>
    const weightBounds: (real, real)
    var portfolio: map<string, (real, real)>

    constructor (markets: Markets, whitelist: StrList, blacklist: seq<string>, weightBounds: (real, real))
      ensures this.markets == markets && this.whitelist == whitelist
      ensures this.blacklist == blacklist && this.weightBounds == weightBounds
      ensures portfolio == map[]
    {
      this.markets := markets;
      this.whitelist := whitelist;
      this.blacklist := blacklist;
      this.weightBounds := weightBounds;
      portfolio := map[];
    }

    /** `refresh_assetlist`: the whitelist becomes a new list holding the
        validated assets; nothing else changes. */
    method RefreshAssetList()
      modifies this
      ensures fresh(whitelist)
      ensures Elements(whitelist.items) == Sanitized(markets, blacklist, old(whitelist.items))
      ensures NoDuplicates(whitelist.items)
      ensures |whitelist.items| == |Sanitized(markets, blacklist, old(whitelist.items))|
      ensures portfolio == old(portfolio)
      ensures old(whitelist).items == old(whitelist.items)
    {
      var validated := ValidateAssetList(markets, blacklist, whitelist.items);
      whitelist := new StrList(validated);
    }

    /** `build_portfolio_assets_markets(base)`: returns the markets of the
        build, strips the resolved assets from the old whitelist list object,
        makes the built asset list the whitelist, and gives every one of its
        assets the configured weight bounds in the portfolio. The blacklist
        plays no part. */
    method BuildPortfolioAssetsMarkets(base: string) returns (baseMarkets: seq<string>)
      modifies this, whitelist
      ensures var r := BaseMarkets(markets, old(whitelist.items), base);
        && Elements(baseMarkets) == r.markets && NoDuplicates(baseMarkets) && |baseMarkets| == |r.markets|
        && old(whitelist).items == r.remaining
        && fresh(whitelist) && Elements(whitelist.items) == r.assets && NoDuplicates(whitelist.items)
        && |whitelist.items| == |r.assets|
        && portfolio.Keys == r.assets && (forall a :: a in portfolio ==> portfolio[a] == weightBounds)
    {
      var pbm, pa, rest := BuildPortfolioBaseMarkets(markets, whitelist.items, base);
      whitelist.items := rest;
      baseMarkets := ListOf(pbm);
      var assets := ListOf(pa);
      portfolio := map a | a in assets :: weightBounds;
      whitelist := new StrList(assets);
    }
  }

  // ---------------------------------------------------------------------
  // The scenario of tests/test_assetlist.py

  function TestMarkets(): Markets
  {
    [ Market("AE/BTC", MarketInfo("AE", "BTC")),
      Market("ETH/USDT", MarketInfo("ETH", "USDT")),
      Market("BTC/USDT", MarketInfo("BTC", "USDT")),
      Market("BNB/USDT", MarketInfo("BNB", "USDT")),
      Market("XXX/ZZZ", MarketInfo("XXX", "ZZZ")) ]
  }

  function TestWhitelist(): seq<string>
  {
    ["BTC", "ETH", "BNB", "USDT", "AE"]
  }

  lemma TestRemoveEth()
    ensures RemoveFirst(TestWhitelist(), "ETH") == ["BTC", "BNB", "USDT", "AE"]
  {
    var wl := TestWhitelist();
    assert wl[1..] == ["ETH", "BNB", "USDT", "AE"];
    assert "BTC" != "ETH";
    assert RemoveFirst(wl[1..], "ETH") == ["BNB", "USDT", "AE"];
  }

  lemma TestStepEth()
    ensures DirectStep(DirectState({}, {}, TestWhitelist()), TestMarkets()[1], "USDT")
      == DirectState({"ETH/USDT"}, {"ETH"}, ["BTC", "BNB", "USDT", "AE"])
  {
    TestRemoveEth();
  }

  lemma TestStepBtc()
    ensures DirectStep(DirectState({"ETH/USDT"}, {"ETH"}, ["BTC", "BNB", "USDT", "AE"]), TestMarkets()[2], "USDT")
      == DirectState({"ETH/USDT", "BTC/USDT"}, {"ETH", "BTC"}, ["BNB", "USDT", "AE"])
  {
  }

  lemma TestStepBnb()
    ensures DirectStep(DirectState({"ETH/USDT", "BTC/USDT"}, {"ETH", "BTC"}, ["BNB", "USDT", "AE"]), TestMarkets()[3], "USDT")
      == DirectState({"ETH/USDT", "BTC/USDT", "BNB/USDT"}, {"ETH", "BTC", "BNB"}, ["USDT", "AE"])
  {
  }

  lemma TestStepAe()
    ensures DirectStep(DirectState({}, {}, TestWhitelist()), TestMarkets()[0], "USDT")
      == DirectState({}, {}, TestWhitelist())
  {
  }

  lemma TestStepXxx()
    ensures var s4 := DirectState({"ETH/USDT", "BTC/USDT", "BNB/USDT"}, {"ETH", "BTC", "BNB"}, ["USDT", "AE"]);
      DirectStep(s4, TestMarkets()[4], "USDT") == s4
  {
  }

  lemma TestDirectPass()
    ensures DirectPass(TestMarkets(), TestWhitelist(), "USDT")
      == DirectState({"ETH/USDT", "BTC/USDT", "BNB/USDT"}, {"ETH", "BTC", "BNB"}, ["USDT", "AE"])
  {
    var ms := TestMarkets();
    var wl := TestWhitelist();
    assert ms[..0] == [];
    DirectPassPrefix(ms, wl, "USDT", 0);
    TestStepAe();
    DirectPassPrefix(ms, wl, "USDT", 1);
    TestStepEth();
    DirectPassPrefix(ms, wl, "USDT", 2);
    TestStepBtc();
    DirectPassPrefix(ms, wl, "USDT", 3);
    TestStepBnb();
    DirectPassPrefix(ms, wl, "USDT", 4);
    TestStepXxx();
    assert ms[..5] == ms;
  }

  lemma TestSymbols()
    ensures Symbols(TestMarkets()) == {"AE/BTC", "ETH/USDT", "BTC/USDT", "BNB/USDT", "XXX/ZZZ"}
  {
  }

  lemma TestBridges()
    ensures BridgeMarket(TestMarkets(), "USDT") == Some("BTC/USDT")
    ensures BridgeMarket(TestMarkets(), "AE") == Some("AE/BTC")
    ensures LinkMarket(TestMarkets(), "USDT") == {"BTC/USDT"}
  {
    TestSymbols();
    var syms := Symbols(TestMarkets());
    assert "USDT" + "/" + Bridge == "USDT/BTC";
    assert "USDT/BTC" !in syms;
    assert Bridge + "/" + "USDT" == "BTC/USDT";
    assert "AE" + "/" + Bridge == "AE/BTC";
  }

  /** The two assets the direct pass leaves are bridged through BTC. */
  lemma TestBridgeMarkets()
    ensures BridgeMarkets(TestMarkets(), ["USDT", "AE"]) == {"BTC/USDT", "AE/BTC"}
  {
    TestBridges();
  }

  lemma TestBridgedAssets()
    ensures BridgedAssets(TestMarkets(), ["USDT", "AE"]) == {"USDT", "AE"}
  {
    TestBridges();
  }

  lemma TestUnions()
    ensures {"ETH/USDT", "BTC/USDT", "BNB/USDT"} + {"BTC/USDT", "AE/BTC"} + {"BTC/USDT"}
      == {"ETH/USDT", "BTC/USDT", "BNB/USDT", "AE/BTC"}
    ensures {"ETH", "BTC", "BNB"} + {"USDT", "AE"} + {"USDT"} == {"BTC", "ETH", "BNB", "USDT", "AE"}
  {
  }

  /** With base USDT the build yields four markets and a five-asset
      whitelist (every test asset), and leaves USDT and AE in the list
      object it was given. */
  lemma TestBuildScenario()
    ensures BaseMarkets(TestMarkets(), TestWhitelist(), "USDT")
      == BuildResult({"ETH/USDT", "BTC/USDT", "BNB/USDT", "AE/BTC"},
                     {"BTC", "ETH", "BNB", "USDT", "AE"}, ["USDT", "AE"])
  {
    TestDirectPass();
    TestBridges();
    TestBridgeMarkets();
    TestBridgedAssets();
    TestUnions();
  }

  /** Both sides of a listed "a/b" symbol are market sides. */
  lemma SidesOfSymbol(ms: Markets, m: Market, a: string, b: string)
    requires m in ms && m.symbol == a + "/" + b && '/' !in a && '/' !in b
    ensures a in Sides(ms) && b in Sides(ms)
  {
    SplitPair(a, b);
    assert a in Split(m.symbol) && b in Split(m.symbol);
  }

  lemma TestCounts()
    ensures |{"ETH/USDT", "BTC/USDT", "BNB/USDT", "AE/BTC"}| == 4
    ensures |{"BTC", "ETH", "BNB", "USDT", "AE"}| == 5
  {
  }

  /** The unit test of `build_portfolio_assets_markets`: four markets, a
      five-asset whitelist, the blacklist as configured, and the configured
      bounds for every portfolio asset. */
  method BuildScenario()
    returns (built: nat, whitelisted: nat, blacklist: seq<string>, portfolio: map<string, (real, real)>)
    ensures built == 4 && whitelisted == 5 && blacklist == ["USDSB"]
    ensures portfolio.Keys == {"USDT", "ETH", "BTC", "BNB", "AE"}
    ensures forall a :: a in portfolio ==> portfolio[a] == (0.05, 0.95)
  {
    TestCounts();
    var shared := new StrList(TestWhitelist());
    var catalog := new StaticAssetList(TestMarkets(), shared, ["USDSB"], (0.05, 0.95));
    var baseMarkets := catalog.BuildPortfolioAssetsMarkets("USDT");
    ghost var r := BaseMarkets(TestMarkets(), TestWhitelist(), "USDT");
    assert r == BuildResult({"ETH/USDT", "BTC/USDT", "BNB/USDT", "AE/BTC"},
                            {"BTC", "ETH", "BNB", "USDT", "AE"}, ["USDT", "AE"]) by {
      TestBuildScenario();
    }
    built, whitelisted := |baseMarkets|, |catalog.whitelist.items|;
    blacklist, portfolio := catalog.blacklist, catalog.portfolio;
  }
}
