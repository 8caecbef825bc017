/** The feature maker of payload/signal.py: fixed-length windows of best ask
    and bid prices and quantities, the zig-zag features (momentum sign,
    trend, volume variation), the MACD features and the ring of ten mid
    price returns. The exponential averages, `log` and `pstdev` are not
    part of this model: the first two are parameters. */
module Signal {
  import opened Common

  // ---------------------------------------------------------------------
  // Windows

  /** The length `[0] * window` gives: 0 for a negative window. */
  function Width(window: int): nat
  {
    if window < 0 then 0 else window
  }

  /** Append `x` and, when `over`, delete the first entry. */
  function Slide<T>(s: seq<T>, x: T, over: bool): (r: seq<T>)
    ensures |r| == if over then |s| else |s| + 1
    ensures |r| > 0 ==> r[|r| - 1] == x
  {
    if over then (s + [x])[1..] else s + [x]
  }

  /** `s.append(x)` then `del s[0]` when `s` outgrew the window. */
  function Push<T>(s: seq<T>, x: T, window: int): seq<T>
  {
    Slide(s, x, |s| + 1 > window)
  }

  /** A full window stays full and its content moves on by one. */
  lemma PushFull<T>(s: seq<T>, x: T, window: int)
    requires |s| == Width(window)
    ensures Push(s, x, window) == (s + [x])[1..]
    ensures |Push(s, x, window)| == Width(window)
  {
  }

  /** The window after appending each of `xs` in turn. */
  function PushAll<T>(s: seq<T>, xs: seq<T>, window: int): seq<T>
    decreases |xs|
  {
    if xs == [] then s else PushAll(Push(s, xs[0], window), xs[1..], window)
  }

  /** A full window always holds the newest `Width(window)` values: after
      any run of appends it is the tail of everything appended. */
  lemma {:induction false} PushAllTail<T>(s: seq<T>, xs: seq<T>, window: int)
    requires |s| == Width(window)
    ensures PushAll(s, xs, window) == (s + xs)[|xs|..]
    decreases |xs|
  {
    if xs == [] {
      assert s + xs == s;
    } else {
      PushFull(s, xs[0], window);
      var s1 := (s + [xs[0]])[1..];
      PushAllTail(s1, xs[1..], window);
      assert s1 + xs[1..] == (s + xs)[1..];
    }
  }

  // ---------------------------------------------------------------------
  // Zig-zag features

  /** `-1 if d < 0 else 1 if d > 0 else 0`. */
  function Sign(d: real): (r: int)
    ensures -1 <= r <= 1
    ensures r == 0 <==> d == 0.0
    ensures r as real * d >= 0.0
  {
    if d < 0.0 then -1 else if d > 0.0 then 1 else 0
  }

  /** The ascent of the trend test over the last five entries. */
  predicate Rising(p: seq<real>)
    requires |p| >= 5
  {
    var n := |p|;
    p[n - 5] < p[n - 3] < p[n - 1] && p[n - 4] < p[n - 2]
  }

  /** Its mirror image. */
  predicate Falling(p: seq<real>)
    requires |p| >= 5
  {
    var n := |p|;
    p[n - 5] > p[n - 3] > p[n - 1] && p[n - 4] > p[n - 2]
  }

  /** The f1 trend feature. */
  function Trend(p: seq<real>): (r: int)
    requires |p| >= 5
    ensures -1 <= r <= 1
    ensures r == 1 <==> Rising(p)
    ensures r == -1 <==> Falling(p)
  {
    if Rising(p) then 1 else if Falling(p) then -1 else 0
  }

  /** Five strictly increasing last prices are a rising trend, five
      strictly decreasing ones a falling trend, five equal ones none. */
  lemma TrendOfMonotone(p: seq<real>)
    requires |p| >= 5
    ensures (forall i :: |p| - 5 <= i < |p| - 1 ==> p[i] < p[i + 1]) ==> Trend(p) == 1
    ensures (forall i :: |p| - 5 <= i < |p| - 1 ==> p[i] > p[i + 1]) ==> Trend(p) == -1
    ensures (forall i :: |p| - 5 <= i < |p| - 1 ==> p[i] == p[i + 1]) ==> Trend(p) == 0
  {
    var n := |p|;
    if forall i :: n - 5 <= i < n - 1 ==> p[i] < p[i + 1] {
      assert p[n - 5] < p[n - 4] < p[n - 3] < p[n - 2] < p[n - 1];
    }
    if forall i :: n - 5 <= i < n - 1 ==> p[i] > p[i + 1] {
      assert p[n - 5] > p[n - 4] > p[n - 3] > p[n - 2] > p[n - 1];
    }
    if forall i :: n - 5 <= i < n - 1 ==> p[i] == p[i + 1] {
      assert p[n - 5] == p[n - 4] == p[n - 3];
    }
  }

  /** `vtNn`: 1 when the ratio grew by more than `valpha`, -1 when it
      shrank by more than `valpha`, otherwise 0. */
  function Threshold(v: real, valpha: real): (r: int)
    ensures -1 <= r <= 1
    ensures valpha >= 0.0 ==> (r == 1 <==> v > 1.0 + valpha) && (r == -1 <==> v < 1.0 - valpha)
  {
    if v - 1.0 > valpha then 1 else if 1.0 - v > valpha then -1 else 0
  }

  /** The f2 combination of the three threshold flags. */
  function Combine(t1: int, t2: int, t3: int): int
  {
    if t1 == 1 && t2 > -1 && t3 < 1 then 1
    else if t1 == -1 && t2 < 1 && t3 > -1 then -1
    else 0
  }

  /** The f2 volume feature from the last three quantities. The list
      indexes raise IndexError on a short list and the divisions raise
      ZeroDivisionError on a zero quantity, in evaluation order. */
  function VolumeFeature(q: seq<real>, valpha: real): (r: Result<int>)
    ensures r.Ok? <==> |q| >= 3 && q[|q| - 2] != 0.0 && q[|q| - 3] != 0.0
    ensures r.Err? && |q| >= 2 && q[|q| - 2] == 0.0 ==> r.error == ZeroDivisionError
    ensures r.Ok? ==> -1 <= r.value <= 1
    ensures r.Ok? && valpha >= 0.0 && r.value == 1 ==> q[|q| - 1] / q[|q| - 2] > 1.0 + valpha
    ensures r.Ok? && valpha >= 0.0 && r.value == -1 ==> q[|q| - 1] / q[|q| - 2] < 1.0 - valpha
  {
    var n := |q|;
    if n < 2 then Err(IndexError)
    else if q[n - 2] == 0.0 then Err(ZeroDivisionError)
    else if n < 3 then Err(IndexError)
    else if q[n - 3] == 0.0 then Err(ZeroDivisionError)
    else
      var v1, v2, v3 := q[n - 1] / q[n - 2], q[n - 1] / q[n - 3], q[n - 2] / q[n - 3];
      Ok(Combine(Threshold(v1, valpha), Threshold(v2, valpha), Threshold(v3, valpha)))
  }

  /** `(f0, f1, f2)` for one side. */
  datatype Ov = Ov(f0: int, f1: int, f2: int)

  /** `makeov_signal`: the ask and the bid feature vectors, both or
      neither. */
  function OvSignal(askPrice: seq<real>, askQuantity: seq<real>, bidPrice: seq<real>, bidQuantity: seq<real>,
                    valpha: real): (r: Result<(Ov, Ov)>)
    ensures r.Ok? <==> |askPrice| >= 5 && |bidPrice| >= 5
                       && VolumeFeature(askQuantity, valpha).Ok? && VolumeFeature(bidQuantity, valpha).Ok?
    ensures (|askPrice| < 5 || |bidPrice| < 5) ==> r == Err(IndexError)
  {
    if |askPrice| < 5 || |bidPrice| < 5 then Err(IndexError)
    else
      match VolumeFeature(askQuantity, valpha)
      case Err(e) => Err(e)
      case Ok(askF2) =>
        match VolumeFeature(bidQuantity, valpha)
        case Err(e) => Err(e)
        case Ok(bidF2) =>
          var na, nb := |askPrice|, |bidPrice|;
          Ok((Ov(Sign(askPrice[na - 1] - askPrice[na - 2]), Trend(askPrice), askF2),
              Ov(Sign(bidPrice[nb - 1] - bidPrice[nb - 2]), Trend(bidPrice), bidF2)))
  }

  /** Every feature of a computed vector is -1, 0 or 1; f0 is the sign of
      the newest price step and f1 is 1 or -1 exactly on a rising or
      falling trend. */
  lemma OvFeaturesInRange(askPrice: seq<real>, askQuantity: seq<real>, bidPrice: seq<real>, bidQuantity: seq<real>,
                          valpha: real)
    requires OvSignal(askPrice, askQuantity, bidPrice, bidQuantity, valpha).Ok?
    ensures var (a, b) := OvSignal(askPrice, askQuantity, bidPrice, bidQuantity, valpha).value;
      var na, nb := |askPrice|, |bidPrice|;
      && -1 <= a.f0 <= 1 && -1 <= a.f1 <= 1 && -1 <= a.f2 <= 1
      && -1 <= b.f0 <= 1 && -1 <= b.f1 <= 1 && -1 <= b.f2 <= 1
      && (a.f0 == 1 <==> askPrice[na - 1] > askPrice[na - 2])
      && (a.f0 == -1 <==> askPrice[na - 1] < askPrice[na - 2])
      && (b.f0 == 1 <==> bidPrice[nb - 1] > bidPrice[nb - 2])
      && (b.f0 == -1 <==> bidPrice[nb - 1] < bidPrice[nb - 2])
      && (a.f1 == 1 <==> Rising(askPrice)) && (a.f1 == -1 <==> Falling(askPrice))
      && (b.f1 == 1 <==> Rising(bidPrice)) && (b.f1 == -1 <==> Falling(bidPrice))
  {
  }

  // ---------------------------------------------------------------------
  // MACD features

  /** `(f0, f1)`: the direction of the MACD value and its distance from the
      mean of the earlier values; `None` where numpy's mean of an empty
      list gives NaN. */
  datatype Macd = Macd(direction: int, force: Option<real>)

  function MacdOf(macd: real, history: seq<real>): (r: Macd)
    ensures r.direction == Sign(macd)
    ensures r.force.Some? <==> |history| > 0
    ensures r.force.Some? ==> r.force.value + Mean(history).value == macd
  {
    match Mean(history)
    case None => Macd(Sign(macd), None)
    case Some(m) => Macd(Sign(macd), Some(macd - m))
  }

  // ---------------------------------------------------------------------
  // The whole state

  /** The best levels `make_signal` reads from its `tob` argument. */
  datatype Quote = Quote(askPrice: real, askQuantity: real, bidPrice: real, bidQuantity: real)

  /** The fields of a `Signal` the updates touch. */
  datatype Windows = Windows(
    askPrice: seq<real>, askQuantity: seq<real>, bidPrice: seq<real>, bidQuantity: seq<real>,
    askMacd: seq<real>, bidMacd: seq<real>,
    mid: real, midl1: real, ret10: seq<real>,
    askOv: Ov, bidOv: Ov, askMacds: Macd, bidMacds: Macd)

  /** What `make_signal` returns, without the `vol` entry. */
  datatype SignalOut = SignalOut(runStep: int, askOv: Ov, bidOv: Ov, askMacds: Macd, bidMacds: Macd)

  /** The six windows hold `Width(window)` entries and the return ring ten. */
  predicate Shaped(s: Windows, window: int)
  {
    && |s.askPrice| == Width(window) && |s.askQuantity| == Width(window)
    && |s.bidPrice| == Width(window) && |s.bidQuantity| == Width(window)
    && |s.askMacd| == Width(window) && |s.bidMacd| == Width(window)
    && |s.ret10| == 10
  }

  /** `Signal(window, valpha)`: zero prices, quantities at the minimum
      precision 0.001, zero MACD history, zero mid prices and returns. */
  function InitialWindows(window: int): (r: Windows)
    ensures Shaped(r, window)
  {
    var w := Width(window);
    Windows(seq(w, _ => 0.0), seq(w, _ => 0.001), seq(w, _ => 0.0), seq(w, _ => 0.001),
            seq(w, _ => 0.0), seq(w, _ => 0.0),
            0.0, 0.0, seq(10, _ => 0.0),
            Ov(0, 0, 0), Ov(0, 0, 0), Macd(0, Some(0.0)), Macd(0, Some(0.0)))
  }

  /** The first step of `make_signal`: append the new best levels to the
      four windows; all four drop their first entry when the ask price
      window outgrew the window. */
  function AfterPush(s: Windows, quote: Quote, window: int): (r: Windows)
    ensures r == s.(askPrice := r.askPrice, askQuantity := r.askQuantity,
                    bidPrice := r.bidPrice, bidQuantity := r.bidQuantity)
    ensures Shaped(s, window) ==> Shaped(r, window)
    ensures |r.askPrice| > 0 ==> r.askPrice[|r.askPrice| - 1] == quote.askPrice
    ensures |r.bidPrice| > 0 ==> r.bidPrice[|r.bidPrice| - 1] == quote.bidPrice
  {
    var over := |s.askPrice| + 1 > window;
    s.(askPrice := Slide(s.askPrice, quote.askPrice, over),
       askQuantity := Slide(s.askQuantity, quote.askQuantity, over),
       bidPrice := Slide(s.bidPrice, quote.bidPrice, over),
       bidQuantity := Slide(s.bidQuantity, quote.bidQuantity, over))
  }

  /** `makeov_signal`: on success only the two feature vectors change. */
  function AfterOv(s: Windows, valpha: real): (r: (Windows, Option<Failure>))
    ensures r.0 == s.(askOv := r.0.askOv, bidOv := r.0.bidOv)
  {
    match OvSignal(s.askPrice, s.askQuantity, s.bidPrice, s.bidQuantity, valpha)
    case Err(e) => (s, Some(e))
    case Ok((a, b)) => (s.(askOv := a, bidOv := b), None)
  }

  /** `makemacd_signal`, with `emaDiff(p)` standing for the difference of
      the 10- and 20-entry exponential averages of the window `p`: the
      features read the history before the new values are appended; both
      histories drop their first entry when the ask history outgrew the
      window. */
  function AfterMacd(s: Windows, window: int, emaDiff: seq<real> -> real): (r: Windows)
    ensures r == s.(askMacds := r.askMacds, bidMacds := r.bidMacds, askMacd := r.askMacd, bidMacd := r.bidMacd)
    ensures Shaped(s, window) ==> Shaped(r, window)
  {
    var a, b := emaDiff(s.askPrice), emaDiff(s.bidPrice);
    var over := |s.askMacd| + 1 > window;
    s.(askMacds := MacdOf(a, s.askMacd), bidMacds := MacdOf(b, s.bidMacd),
       askMacd := Slide(s.askMacd, a, over), bidMacd := Slide(s.bidMacd, b, over))
  }

  /** `make_mid_signal(step, bid, ask)`, with `ln` standing for `math.log`:
      the mid price is set, a zero previous mid price is replaced by it,
      and the return is written at `step % 10`. Dividing by a zero mid
      price raises ZeroDivisionError and `log` of a ratio at or below 0
      raises ValueError; the assignments before the failure stay. */
  function AfterMid(s: Windows, step: int, bid: real, ask: real, ln: real -> real): (r: (Windows, Option<Failure>))
    requires |s.ret10| == 10
    ensures r.0 == s.(mid := r.0.mid, midl1 := r.0.midl1, ret10 := r.0.ret10)
    ensures |r.0.ret10| == 10
  {
    var mid := (ask + bid) / 2.0;
    var l1 := if s.midl1 == 0.0 then mid else s.midl1;
    if l1 == 0.0 then (s.(mid := mid, midl1 := l1), Some(ZeroDivisionError))
    else
      var ratio := mid / l1;
      if ratio <= 0.0 then (s.(mid := mid, midl1 := l1), Some(ValueError))
      else (s.(mid := mid, midl1 := mid, ret10 := s.ret10[step % 10 := 100.0 * ln(ratio)]), None)
  }

  /** `make_signal(tob, step)`: push the levels, then the zig-zag, MACD and
      mid updates; a failure in one of them ends the call. */
  function AfterSignal(s: Windows, window: int, valpha: real, quote: Quote, step: int,
                       emaDiff: seq<real> -> real, ln: real -> real): (r: (Windows, Result<SignalOut>))
    requires |s.ret10| == 10
    ensures |r.0.ret10| == 10
    ensures Shaped(s, window) ==> Shaped(r.0, window)
    ensures r.1.Ok? ==> r.1.value.runStep == step && r.1.value.askOv == r.0.askOv && r.1.value.bidOv == r.0.bidOv
  {
    var s1 := AfterPush(s, quote, window);
    var (s2, f2) := AfterOv(s1, valpha);
    if f2.Some? then (s2, Err(f2.value))
    else
      var s3 := AfterMacd(s2, window, emaDiff);
      var (s4, f4) := AfterMid(s3, step, quote.bidPrice, quote.askPrice, ln);
      if f4.Some? then (s4, Err(f4.value))
      else (s4, Ok(SignalOut(step, s4.askOv, s4.bidOv, s4.askMacds, s4.bidMacds)))
  }

  // ---------------------------------------------------------------------
  // Properties

  /** Every call keeps the six window lengths and the ring's length, and
      the price and quantity windows end with the new levels, whether or
      not a later step fails. */
  lemma SignalKeepsShape(s: Windows, window: int, valpha: real, quote: Quote, step: int,
                         emaDiff: seq<real> -> real, ln: real -> real)
    requires Shaped(s, window)
    ensures var r := AfterSignal(s, window, valpha, quote, step, emaDiff, ln).0;
      && Shaped(r, window)
      && r.askPrice == Push(s.askPrice, quote.askPrice, window)
      && r.askQuantity == Push(s.askQuantity, quote.askQuantity, window)
      && r.bidPrice == Push(s.bidPrice, quote.bidPrice, window)
      && r.bidQuantity == Push(s.bidQuantity, quote.bidQuantity, window)
  {
    PushFull(s.askPrice, quote.askPrice, window);
    PushFull(s.askQuantity, quote.askQuantity, window);
    PushFull(s.bidPrice, quote.bidPrice, window);
    PushFull(s.bidQuantity, quote.bidQuantity, window);
    var s1 := AfterPush(s, quote, window);
    assert Shaped(s1, window);
    var (s2, f2) := AfterOv(s1, valpha);
    assert Shaped(s2, window);
    if f2.None? {
      var s3 := AfterMacd(s2, window, emaDiff);
      var s4 := AfterMid(s3, step, quote.bidPrice, quote.askPrice, ln).0;
      assert Shaped(s4, window) && s4.askPrice == s1.askPrice && s4.bidPrice == s1.bidPrice;
    }
  }

  /** A window shorter than five makes every call fail in the trend test
      with IndexError. */
  lemma ShortWindowFails(s: Windows, window: int, valpha: real, quote: Quote, step: int,
                         emaDiff: seq<real> -> real, ln: real -> real)
    requires Shaped(s, window) && window < 5
    ensures AfterSignal(s, window, valpha, quote, step, emaDiff, ln).1 == Err(IndexError)
  {
    PushFull(s.askPrice, quote.askPrice, window);
    PushFull(s.bidPrice, quote.bidPrice, window);
  }

  /** A successful call reports the given step with the features it
      stored, and the MACD features come from the pushed price windows and
      the MACD history before the call. */
  lemma SignalReportsStep(s: Windows, window: int, valpha: real, quote: Quote, step: int,
                          emaDiff: seq<real> -> real, ln: real -> real)
    requires |s.ret10| == 10
    requires AfterSignal(s, window, valpha, quote, step, emaDiff, ln).1.Ok?
    ensures var (r, out) := AfterSignal(s, window, valpha, quote, step, emaDiff, ln);
      var p := AfterPush(s, quote, window);
      && out.value.runStep == step
      && out.value.askOv == r.askOv && out.value.bidOv == r.bidOv
      && (out.value.askOv, out.value.bidOv) == OvSignal(p.askPrice, p.askQuantity, p.bidPrice, p.bidQuantity, valpha).value
      && out.value.askMacds == MacdOf(emaDiff(p.askPrice), s.askMacd)
      && out.value.bidMacds == MacdOf(emaDiff(p.bidPrice), s.bidMacd)
  {
  }

  /** With a window of at least five, a call succeeds exactly when the
      quantities the volume feature divides by are not zero and the mid
      price ratio is positive; for a positive mid price and a previous mid
      price that is zero or positive it is. */
  lemma SignalSucceeds(s: Windows, window: int, valpha: real, quote: Quote, step: int,
                       emaDiff: seq<real> -> real, ln: real -> real)
    requires Shaped(s, window) && window >= 5
    requires s.askQuantity[window - 1] != 0.0 && s.askQuantity[window - 2] != 0.0
    requires s.bidQuantity[window - 1] != 0.0 && s.bidQuantity[window - 2] != 0.0
    requires quote.askPrice + quote.bidPrice > 0.0 && s.midl1 >= 0.0
    ensures AfterSignal(s, window, valpha, quote, step, emaDiff, ln).1.Ok?
  {
    var p := AfterPush(s, quote, window);
    PushedOvSucceeds(s, quote, window, valpha);
    var s3 := AfterMacd(AfterOv(p, valpha).0, window, emaDiff);
    MidSucceeds(s3, step, quote.bidPrice, quote.askPrice, ln);
  }

  lemma PushedOvSucceeds(s: Windows, quote: Quote, window: int, valpha: real)
    requires Shaped(s, window) && window >= 5
    requires s.askQuantity[window - 1] != 0.0 && s.askQuantity[window - 2] != 0.0
    requires s.bidQuantity[window - 1] != 0.0 && s.bidQuantity[window - 2] != 0.0
    ensures var p := AfterPush(s, quote, window);
      AfterOv(p, valpha).1 == None && |AfterOv(p, valpha).0.ret10| == 10 && AfterOv(p, valpha).0.midl1 == s.midl1
  {
    var p := AfterPush(s, quote, window);
    PushFull(s.askQuantity, quote.askQuantity, window);
    PushFull(s.bidQuantity, quote.bidQuantity, window);
    assert p.askQuantity[window - 2] == s.askQuantity[window - 1];
    assert p.askQuantity[window - 3] == s.askQuantity[window - 2];
    assert p.bidQuantity[window - 2] == s.bidQuantity[window - 1];
    assert p.bidQuantity[window - 3] == s.bidQuantity[window - 2];
  }

  lemma MidSucceeds(s: Windows, step: int, bid: real, ask: real, ln: real -> real)
    requires |s.ret10| == 10 && ask + bid > 0.0 && s.midl1 >= 0.0
    ensures AfterMid(s, step, bid, ask, ln).1 == None
  {
    var mid := (ask + bid) / 2.0;
    if s.midl1 > 0.0 {
      assert mid / s.midl1 > 0.0;
    } else {
      assert mid / mid == 1.0;
    }
  }

  /** The first mid update, or any with an unchanged mid price, writes a
      zero return, and only at `step % 10`. */
  lemma FirstReturnIsZero(s: Windows, step: int, bid: real, ask: real, ln: real -> real)
    requires |s.ret10| == 10 && ln(1.0) == 0.0
    requires s.midl1 == 0.0 || s.midl1 == (ask + bid) / 2.0
    requires ask + bid != 0.0
    ensures var (r, f) := AfterMid(s, step, bid, ask, ln);
      f == None && r.midl1 == r.mid == (ask + bid) / 2.0 && r.ret10 == s.ret10[step % 10 := 0.0]
  {
    var mid := (ask + bid) / 2.0;
    assert mid / mid == 1.0;
  }

  /** A mid update changes the return ring at `step % 10` and nowhere
      else, and leaves the previous mid price equal to the new one. */
  lemma MidWritesOneSlot(s: Windows, step: int, bid: real, ask: real, ln: real -> real)
    requires |s.ret10| == 10
    ensures var (r, f) := AfterMid(s, step, bid, ask, ln);
      && r.mid == (ask + bid) / 2.0
      && (forall i :: 0 <= i < 10 && i != step % 10 ==> r.ret10[i] == s.ret10[i])
      && (f == None ==> r.midl1 == r.mid)
      && (f != None ==> r.ret10 == s.ret10)
  {
  }

  /** The state after `Signal(window, valpha)` passes the window test of a
      first call exactly when the window is at least five. */
  lemma FirstCallOfWindow(window: int, valpha: real, quote: Quote, step: int,
                          emaDiff: seq<real> -> real, ln: real -> real)
    requires quote.askPrice + quote.bidPrice > 0.0
    ensures AfterSignal(InitialWindows(window), window, valpha, quote, step, emaDiff, ln).1.Ok? <==> window >= 5
  {
    var s := InitialWindows(window);
    if window >= 5 {
      SignalSucceeds(s, window, valpha, quote, step, emaDiff, ln);
    } else {
      ShortWindowFails(s, window, valpha, quote, step, emaDiff, ln);
    }
  }

  // ---------------------------------------------------------------------
  // The object

  class Signal {
    const window: int
    const valpha: real
    var askPrice: seq<real>
    var askQuantity: seq<real>
    var bidPrice: seq<real>
    var bidQuantity: seq<real>
    var askMacd: seq<real>
    var bidMacd: seq<real>
    var mid: real
    var midl1: real
    var ret10: seq<real>
    var askOv: Ov
    var bidOv: Ov
    var askMacds: Macd
    var bidMacds: Macd

    function State(): Windows
      reads this
    {
      Windows(askPrice, askQuantity, bidPrice, bidQuantity, askMacd, bidMacd,
              mid, midl1, ret10, askOv, bidOv, askMacds, bidMacds)
    }

    ghost predicate Valid()
      reads this
    {
      Shaped(State(), window)
    }

    /** `Signal(window, valpha)`. */
    constructor (window: int, valpha: real)
      ensures Valid()
      ensures this.window == window && this.valpha == valpha
      ensures State() == InitialWindows(window)
    {
      this.window := window;
      this.valpha := valpha;
      var w := Width(window);
      askPrice := seq(w, _ => 0.0);
      askQuantity := seq(w, _ => 0.001);
      bidPrice := seq(w, _ => 0.0);
      bidQuantity := seq(w, _ => 0.001);
      askMacd := seq(w, _ => 0.0);
      bidMacd := seq(w, _ => 0.0);
      mid := 0.0;
      midl1 := 0.0;
      ret10 := seq(10, _ => 0.0);
      askOv := Ov(0, 0, 0);
      bidOv := Ov(0, 0, 0);
      askMacds := Macd(0, Some(0.0));
      bidMacds := Macd(0, Some(0.0));
    }

    method MakeMidSignal(step: int, bid: real, ask: real, ln: real -> real) returns (failure: Option<Failure>)
      requires |ret10| == 10
      modifies this
      ensures (State(), failure) == AfterMid(old(State()), step, bid, ask, ln)
    {
      mid := (ask + bid) / 2.0;
      if midl1 == 0.0 {
        midl1 := mid;
      }
      if midl1 == 0.0 {
        return Some(ZeroDivisionError);
      }
      var ratio := mid / midl1;
      if ratio <= 0.0 {
        return Some(ValueError);
      }
      ret10 := ret10[step % 10 := 100.0 * ln(ratio)];
      midl1 := mid;
      return None;
    }

    method MakeOvSignal(step: int) returns (failure: Option<Failure>)
      modifies this
      ensures (State(), failure) == AfterOv(old(State()), valpha)
    {
      var r := OvSignal(askPrice, askQuantity, bidPrice, bidQuantity, valpha);
      if r.Err? {
        return Some(r.error);
      }
      askOv := r.value.0;
      bidOv := r.value.1;
      return None;
    }

    method MakeMacdSignal(step: int, emaDiff: seq<real> -> real)
      modifies this
      ensures State() == AfterMacd(old(State()), window, emaDiff)
    {
      var a := emaDiff(askPrice);
      var b := emaDiff(bidPrice);
      var askHistory := askMacd + [a];
      var bidHistory := bidMacd + [b];
      if |askHistory| > window {
        askHistory := askHistory[1..];
        bidHistory := bidHistory[1..];
      }
      askMacds, bidMacds := MacdOf(a, askMacd), MacdOf(b, bidMacd);
      askMacd, bidMacd := askHistory, bidHistory;
    }

    /** `make_signal(tob, step)`: the state after the call is the one
        `AfterSignal` describes, so the windows keep their lengths. */
    method MakeSignal(quote: Quote, step: int, emaDiff: seq<real> -> real, ln: real -> real)
      returns (r: Result<SignalOut>)
      requires Valid()
      modifies this
      ensures (State(), r) == AfterSignal(old(State()), window, valpha, quote, step, emaDiff, ln)
      ensures Valid()
    {
      ghost var before := State();
      var ap, aq := askPrice + [quote.askPrice], askQuantity + [quote.askQuantity];
      var bp, bq := bidPrice + [quote.bidPrice], bidQuantity + [quote.bidQuantity];
      if |ap| > window {
        ap, aq, bp, bq := ap[1..], aq[1..], bp[1..], bq[1..];
      }
      askPrice, askQuantity, bidPrice, bidQuantity := ap, aq, bp, bq;
      assert State() == AfterPush(before, quote, window);
      SignalKeepsShape(before, window, valpha, quote, step, emaDiff, ln);
      var f := MakeOvSignal(step);
      if f.Some? {
        return Err(f.value);
      }
      MakeMacdSignal(step, emaDiff);
      f := MakeMidSignal(step, quote.bidPrice, quote.askPrice, ln);
      if f.Some? {
        return Err(f.value);
      }
      return Ok(SignalOut(step, askOv, bidOv, askMacds, bidMacds));
    }
  }
}
