/**
 * The technical-indicator engine of lib/technical-indicators.ts over exact rational
 * arithmetic (`real`).  Each `Calculate…` method builds its output the way the source
 * does, by pushing onto a local list inside a loop, and is proved equal to a ghost
 * specification function; the properties of the indicators are lemmas about those
 * specification functions.
 */
module Indicators {
  import opened Common

  /** One OHLCV bar (`PriceData`). */
  datatype PriceData = PriceData(date: string, open: real, high: real, low: real, close: real, volume: real)

  /** Result of `calculateMACD`. */
  datatype Macd = Macd(macd: seq<real>, signal: seq<real>, histogram: seq<real>)

  /** Result of `calculateBollingerBands`. */
  datatype Bands = Bands(middle: seq<real>, upper: seq<real>, lower: seq<real>)

  /** Result of `calculateStochastic`. */
  datatype Stochastic = Stochastic(k: seq<real>, d: seq<real>)

  /** Result of `getCurrentIndicators` when there is enough data. */
  datatype Snapshot = Snapshot(
    currentPrice: real, sma20: real, sma50: real, ema12: real, ema26: real,
    rsi: real, macd: real, macdSignal: real, macdHistogram: real)

  // ---------------------------------------------------------------------------
  // Arithmetic helpers

  function Abs(x: real): real { if x < 0.0 then -x else x }

  function Max(a: real, b: real): real { if a < b then b else a }

  function Min(a: real, b: real): real { if a < b then a else b }

  function Last(s: seq<real>): real
    requires |s| > 0
  {
    s[|s| - 1]
  }

  /** `s.reduce((a, b) => a + b, 0)`: a left fold of `+` from 0. */
  function Sum(s: seq<real>): real
    decreases |s|
  {
    if |s| == 0 then 0.0 else Sum(s[..|s| - 1]) + s[|s| - 1]
  }

  ghost predicate AllAtLeast(s: seq<real>, lo: real)
  {
    forall i :: 0 <= i < |s| ==> lo <= s[i]
  }

  ghost predicate AllAtMost(s: seq<real>, hi: real)
  {
    forall i :: 0 <= i < |s| ==> s[i] <= hi
  }

  lemma {:induction false} SumAtLeast(s: seq<real>, lo: real)
    requires AllAtLeast(s, lo)
    ensures |s| as real * lo <= Sum(s)
    decreases |s|
  {
    if |s| > 0 {
      var init := s[..|s| - 1];
      assert AllAtLeast(init, lo);
      SumAtLeast(init, lo);
      assert |s| as real * lo == |init| as real * lo + lo;
    }
  }

  lemma {:induction false} SumAtMost(s: seq<real>, hi: real)
    requires AllAtMost(s, hi)
    ensures Sum(s) <= |s| as real * hi
    decreases |s|
  {
    if |s| > 0 {
      var init := s[..|s| - 1];
      assert AllAtMost(init, hi);
      SumAtMost(init, hi);
      assert |s| as real * hi == |init| as real * hi + hi;
    }
  }

  /** A non-empty sum of positive numbers is positive. */
  lemma {:induction false} SumPositive(s: seq<real>)
    requires |s| > 0 && forall i :: 0 <= i < |s| ==> s[i] > 0.0
    ensures Sum(s) > 0.0
    decreases |s|
  {
    var init := s[..|s| - 1];
    if |init| > 0 {
      SumPositive(init);
    }
  }

  /** The mean of `n` numbers in [lo, hi] lies in [lo, hi]. */
  lemma MeanWithin(s: seq<real>, n: nat, lo: real, hi: real)
    requires n == |s| && n > 0 && AllAtLeast(s, lo) && AllAtMost(s, hi)
    ensures lo <= Sum(s) / n as real <= hi
  {
    SumAtLeast(s, lo);
    SumAtMost(s, hi);
    DivAtLeast(Sum(s), n as real, lo);
    DivAtMost(Sum(s), n as real, hi);
  }

  lemma DivAtLeast(x: real, n: real, lo: real)
    requires n > 0.0 && n * lo <= x
    ensures lo <= x / n
  {
    var q := x / n;
    assert q * n == x;
    MulNonNegative(q - lo, n);
  }

  lemma DivAtMost(x: real, n: real, hi: real)
    requires n > 0.0 && x <= n * hi
    ensures x / n <= hi
  {
    var q := x / n;
    assert q * n == x;
    MulNonNegative(hi - q, n);
  }

  lemma DivPositive(x: real, n: real)
    requires x > 0.0 && n > 0.0
    ensures x / n > 0.0
  {
    var q := x / n;
    assert q * n == x;
    if q <= 0.0 {
      MulNonPositives(q, -n);
    }
  }

  lemma MulNonNegative(a: real, b: real)
    requires a >= 0.0 && b >= 0.0
    ensures a * b >= 0.0
  {
  }

  lemma MulNonPositives(a: real, b: real)
    requires a <= 0.0 && b <= 0.0
    ensures a * b >= 0.0
  {
  }

  // ---------------------------------------------------------------------------
  // SMA (lines 18-27)

  /** The mean of the `period` prices starting at index `j`. */
  ghost function WindowMean(prices: seq<real>, period: nat, j: nat): real
    requires period > 0 && j + period <= |prices|
  {
    Sum(prices[j..j + period]) / period as real
  }

  /** The SMA series: one window mean per full window, nothing when there is no full window. */
  ghost function SmaSpec(prices: seq<real>, period: nat): (sma: seq<real>)
    requires period > 0
    ensures |sma| == if |prices| < period then 0 else |prices| - period + 1
  {
    if |prices| < period then []
    else seq(|prices| - period + 1, j requires 0 <= j < |prices| - period + 1 => WindowMean(prices, period, j))
  }

  method CalculateSMA(prices: seq<real>, period: nat) returns (sma: seq<real>)
    requires period > 0
    ensures |sma| == if |prices| < period then 0 else |prices| - period + 1
    ensures forall j :: 0 <= j < |sma| ==> sma[j] == Sum(prices[j..j + period]) / period as real
    ensures sma == SmaSpec(prices, period)
  {
    if |prices| < period {
      return [];
    }
    sma := [];
    for i := period - 1 to |prices|
      invariant |sma| == i - period + 1
      invariant forall j :: 0 <= j < |sma| ==> sma[j] == WindowMean(prices, period, j)
    {
      var sum := Sum(prices[i - period + 1..i + 1]);
      sma := sma + [sum / period as real];
    }
  }

  /** Every SMA value lies between bounds that hold for every price. */
  lemma SmaWithin(prices: seq<real>, period: nat, lo: real, hi: real)
    requires period > 0 && AllAtLeast(prices, lo) && AllAtMost(prices, hi)
    ensures AllAtLeast(SmaSpec(prices, period), lo) && AllAtMost(SmaSpec(prices, period), hi)
  {
    var sma := SmaSpec(prices, period);
    forall j | 0 <= j < |sma|
      ensures lo <= sma[j] <= hi
    {
      var w := prices[j..j + period];
      assert AllAtLeast(w, lo) && AllAtMost(w, hi);
      MeanWithin(w, period, lo, hi);
    }
  }

  // ---------------------------------------------------------------------------
  // EMA (lines 32-49)

  /** The smoothing constant k = 2 / (period + 1). */
  function Smoothing(period: nat): (k: real)
    requires period > 0
    ensures 0.0 < k <= 1.0
  {
    2.0 / (period as real + 1.0)
  }

  /** One EMA step: the newest price weighted by `k`, the previous value by `1 − k`. */
  function Blend(price: real, previous: real, k: real): real
  {
    price * k + previous * (1.0 - k)
  }

  /**
   * The EMA series, defined on a growing prefix of the prices: the first value is the
   * mean of the first window, every later value is `p·k + previous·(1 − k)` for the
   * newest price `p`.  Nothing when there is no full window.
   */
  ghost function EmaSpec(prices: seq<real>, period: nat): (ema: seq<real>)
    requires period > 0
    ensures |ema| == if |prices| < period then 0 else |prices| - period + 1
    decreases |prices|
  {
    if |prices| < period then []
    else if |prices| == period then [Sum(prices) / period as real]
    else
      var prev := EmaSpec(prices[..|prices| - 1], period);
      prev + [Blend(Last(prices), Last(prev), Smoothing(period))]
  }

  method CalculateEMA(prices: seq<real>, period: nat) returns (ema: seq<real>)
    requires period > 0
    ensures |ema| == if |prices| < period then 0 else |prices| - period + 1
    ensures |ema| > 0 ==> ema[0] == SmaSpec(prices, period)[0]
    ensures ema == EmaSpec(prices, period)
  {
    if |prices| < period {
      return [];
    }
    var k := Smoothing(period);
    var firstSma := Sum(prices[..period]) / period as real;
    ema := [firstSma];
    for i := period to |prices|
      invariant |ema| == i - period + 1
      invariant ema[0] == firstSma
      invariant ema == EmaSpec(prices[..i], period)
    {
      var value := Blend(prices[i], ema[|ema| - 1], k);
      ghost var next := prices[..i + 1];
      assert next[..i] == prices[..i] && Last(next) == prices[i];
      assert EmaSpec(next, period) == EmaSpec(prices[..i], period) + [value];
      ema := ema + [value];
    }
    assert prices[..|prices|] == prices;
    assert prices[..period] == prices[0..0 + period];
  }

  /** The EMA of a prefix of the prices is a prefix of the EMA of all of them. */
  lemma {:induction false} EmaPrefix(prices: seq<real>, period: nat, m: nat)
    requires period > 0 && m <= |prices|
    ensures EmaSpec(prices[..m], period) == EmaSpec(prices, period)[..|EmaSpec(prices[..m], period)|]
    decreases |prices| - m
  {
    if m == |prices| {
      assert prices[..m] == prices;
    } else {
      EmaPrefix(prices, period, m + 1);
      assert prices[..m + 1][..m] == prices[..m];
    }
  }

  /** The first EMA value is the SMA of the first window. */
  lemma EmaStartsAtSma(prices: seq<real>, period: nat)
    requires period > 0 && period <= |prices|
    ensures EmaSpec(prices, period)[0] == SmaSpec(prices, period)[0]
  {
    EmaPrefix(prices, period, period);
    assert prices[..period] == prices[0..0 + period];
  }

  /** Every later EMA value blends the price that entered the window with the previous value. */
  lemma EmaStep(prices: seq<real>, period: nat, j: nat)
    requires period > 0 && 0 < j < |EmaSpec(prices, period)|
    ensures EmaSpec(prices, period)[j] ==
      Blend(prices[period - 1 + j], EmaSpec(prices, period)[j - 1], Smoothing(period))
  {
    var m := period + j;
    EmaPrefix(prices, period, m);
    EmaPrefix(prices, period, m - 1);
    var head := prices[..m];
    assert head[..m - 1] == prices[..m - 1];
    assert Last(head) == prices[period - 1 + j];
  }

  lemma ConvexAtLeast(p: real, e: real, k: real, lo: real)
    requires 0.0 < k <= 1.0 && lo <= p && lo <= e
    ensures lo <= Blend(p, e, k)
  {
    MulNonNegative(p - lo, k);
    MulNonNegative(e - lo, 1.0 - k);
    assert p * k + e * (1.0 - k) - lo == (p - lo) * k + (e - lo) * (1.0 - k);
  }

  lemma ConvexAtMost(p: real, e: real, k: real, hi: real)
    requires 0.0 < k <= 1.0 && p <= hi && e <= hi
    ensures Blend(p, e, k) <= hi
  {
    MulNonNegative(hi - p, k);
    MulNonNegative(hi - e, 1.0 - k);
    assert hi - (p * k + e * (1.0 - k)) == (hi - p) * k + (hi - e) * (1.0 - k);
  }

  /** Every EMA value lies between bounds that hold for every price. */
  lemma {:induction false} EmaWithin(prices: seq<real>, period: nat, lo: real, hi: real)
    requires period > 0 && AllAtLeast(prices, lo) && AllAtMost(prices, hi)
    ensures AllAtLeast(EmaSpec(prices, period), lo) && AllAtMost(EmaSpec(prices, period), hi)
    decreases |prices|
  {
    if |prices| == period {
      MeanWithin(prices, period, lo, hi);
    } else if |prices| > period {
      var front := prices[..|prices| - 1];
      assert AllAtLeast(front, lo) && AllAtMost(front, hi);
      EmaWithin(front, period, lo, hi);
      var prev := EmaSpec(front, period);
      var x := Blend(Last(prices), Last(prev), Smoothing(period));
      ConvexAtLeast(Last(prices), Last(prev), Smoothing(period), lo);
      ConvexAtMost(Last(prices), Last(prev), Smoothing(period), hi);
      AppendWithin(prev, x, lo, hi);
    }
  }

  /** Appending a value within the bounds to a sequence within the bounds stays within them. */
  lemma AppendWithin(s: seq<real>, x: real, lo: real, hi: real)
    requires AllAtLeast(s, lo) && AllAtMost(s, hi) && lo <= x <= hi
    ensures AllAtLeast(s + [x], lo) && AllAtMost(s + [x], hi)
  {
  }

  /** A constant series has a constant SMA and a constant EMA, both equal to the price. */
  lemma ConstantSeriesAverages(prices: seq<real>, period: nat, c: real)
    requires period > 0 && forall i :: 0 <= i < |prices| ==> prices[i] == c
    ensures forall j :: 0 <= j < |SmaSpec(prices, period)| ==> SmaSpec(prices, period)[j] == c
    ensures forall j :: 0 <= j < |EmaSpec(prices, period)| ==> EmaSpec(prices, period)[j] == c
  {
    assert AllAtLeast(prices, c) && AllAtMost(prices, c);
    SmaWithin(prices, period, c, c);
    EmaWithin(prices, period, c, c);
  }

  // ---------------------------------------------------------------------------
  // RSI (lines 54-83)

  function Gain(change: real): (g: real)
    ensures g >= 0.0
  {
    if change > 0.0 then change else 0.0
  }

  function Loss(change: real): (l: real)
    ensures l >= 0.0
  {
    if change < 0.0 then Abs(change) else 0.0
  }

  /** Per-step gains `max(Δ, 0)`, one per consecutive pair of prices. */
  ghost function Gains(prices: seq<real>): (g: seq<real>)
    ensures |g| == if |prices| == 0 then 0 else |prices| - 1
    decreases |prices|
  {
    if |prices| <= 1 then []
    else Gains(prices[..|prices| - 1]) + [Gain(prices[|prices| - 1] - prices[|prices| - 2])]
  }

  /** Per-step losses `max(−Δ, 0)`, one per consecutive pair of prices. */
  ghost function Losses(prices: seq<real>): (l: seq<real>)
    ensures |l| == if |prices| == 0 then 0 else |prices| - 1
    decreases |prices|
  {
    if |prices| <= 1 then []
    else Losses(prices[..|prices| - 1]) + [Loss(prices[|prices| - 1] - prices[|prices| - 2])]
  }

  /** Gain and loss number `i` come from the step from price `i` to price `i + 1`. */
  lemma {:induction false} ChangesAt(prices: seq<real>, i: nat)
    requires i + 1 < |prices|
    ensures Gains(prices)[i] == Gain(prices[i + 1] - prices[i])
    ensures Losses(prices)[i] == Loss(prices[i + 1] - prices[i])
    decreases |prices|
  {
    if i + 2 < |prices| {
      ChangesAt(prices[..|prices| - 1], i);
    }
  }

  lemma ChangesNonNegative(prices: seq<real>)
    ensures AllAtLeast(Gains(prices), 0.0) && AllAtLeast(Losses(prices), 0.0)
  {
    forall i | 0 <= i < |Gains(prices)|
      ensures Gains(prices)[i] >= 0.0 && Losses(prices)[i] >= 0.0
    {
      ChangesAt(prices, i);
    }
  }

  /** Wilder's smoothing step `(avg·(period − 1) + x) / period`. */
  function Wilder(avg: real, period: nat, x: real): real
    requires period > 0
  {
    (avg * (period as real - 1.0) + x) / period as real
  }

  /** The `j`-th Wilder average: the plain mean of the first `period` values, then Wilder steps. */
  ghost function WilderAt(xs: seq<real>, period: nat, j: nat): real
    requires period > 0 && period + j <= |xs|
    decreases j
  {
    if j == 0 then Sum(xs[..period]) / period as real
    else Wilder(WilderAt(xs, period, j - 1), period, xs[period - 1 + j])
  }

  lemma WilderStepAtLeast(a: real, period: nat, x: real, lo: real)
    requires period > 0 && lo <= a && lo <= x
    ensures lo <= Wilder(a, period, x)
  {
    var p := period as real;
    MulNonNegative(a - lo, p - 1.0);
    assert a * (p - 1.0) + x - p * lo == (a - lo) * (p - 1.0) + (x - lo);
    DivAtLeast(a * (p - 1.0) + x, p, lo);
  }

  lemma WilderStepAtMost(a: real, period: nat, x: real, hi: real)
    requires period > 0 && a <= hi && x <= hi
    ensures Wilder(a, period, x) <= hi
  {
    var p := period as real;
    MulNonNegative(hi - a, p - 1.0);
    assert p * hi - (a * (p - 1.0) + x) == (hi - a) * (p - 1.0) + (hi - x);
    DivAtMost(a * (p - 1.0) + x, p, hi);
  }

  lemma {:induction false} WilderAtLeast(xs: seq<real>, period: nat, j: nat, lo: real)
    requires period > 0 && period + j <= |xs| && AllAtLeast(xs, lo)
    ensures lo <= WilderAt(xs, period, j)
    decreases j
  {
    if j == 0 {
      var w := xs[..period];
      assert AllAtLeast(w, lo);
      SumAtLeast(w, lo);
      DivAtLeast(Sum(w), period as real, lo);
    } else {
      WilderAtLeast(xs, period, j - 1, lo);
      WilderStepAtLeast(WilderAt(xs, period, j - 1), period, xs[period - 1 + j], lo);
    }
  }

  lemma {:induction false} WilderAtMost(xs: seq<real>, period: nat, j: nat, hi: real)
    requires period > 0 && period + j <= |xs| && AllAtMost(xs, hi)
    ensures WilderAt(xs, period, j) <= hi
    decreases j
  {
    if j == 0 {
      var w := xs[..period];
      assert AllAtMost(w, hi);
      SumAtMost(w, hi);
      DivAtMost(Sum(w), period as real, hi);
    } else {
      WilderAtMost(xs, period, j - 1, hi);
      WilderStepAtMost(WilderAt(xs, period, j - 1), period, xs[period - 1 + j], hi);
    }
  }

  lemma {:induction false} WilderPositive(xs: seq<real>, period: nat, j: nat)
    requires period > 0 && period + j <= |xs| && forall i :: 0 <= i < |xs| ==> xs[i] > 0.0
    ensures WilderAt(xs, period, j) > 0.0
    decreases j
  {
    if j == 0 {
      SumPositive(xs[..period]);
      DivPositive(Sum(xs[..period]), period as real);
    } else {
      WilderPositive(xs, period, j - 1);
      var a := WilderAt(xs, period, j - 1);
      var p := period as real;
      MulNonNegative(a, p - 1.0);
      DivPositive(a * (p - 1.0) + xs[period - 1 + j], p);
    }
  }

  /**
   * `100 − 100 / (1 + rs)` with `rs = avgGain / avgLoss`, and `rs = 100` when `avgLoss` is 0.
   * The value always lies in [0, 100); it is exactly 100 − 100/101 when there is no average
   * loss, and 0 when there is no average gain but some average loss.
   */
  function RsiValue(avgGain: real, avgLoss: real): (r: real)
    requires avgGain >= 0.0 && avgLoss >= 0.0
    ensures 0.0 <= r < 100.0
    ensures avgLoss == 0.0 ==> r == 100.0 - 100.0 / 101.0
    ensures avgGain == 0.0 && avgLoss > 0.0 ==> r == 0.0
  {
    var rs := if avgLoss == 0.0 then 100.0 else avgGain / avgLoss;
    100.0 - 100.0 / (1.0 + rs)
  }

  /** The RSI value emitted for gains index `period + m`. */
  ghost function RsiAt(prices: seq<real>, period: nat, m: nat): real
    requires period > 0 && period + m + 2 <= |prices|
  {
    var gains, losses := Gains(prices), Losses(prices);
    ChangesNonNegative(prices);
    WilderAtLeast(gains, period, m + 1, 0.0);
    WilderAtLeast(losses, period, m + 1, 0.0);
    RsiValue(WilderAt(gains, period, m + 1), WilderAt(losses, period, m + 1))
  }

  /**
   * The RSI series.  Values start after the seed averages, so the series has
   * `|prices| − period − 1` values and is empty for `|prices| == period + 1`.
   */
  ghost function RsiSpec(prices: seq<real>, period: nat): (rsi: seq<real>)
    requires period > 0
    ensures |rsi| == if |prices| < period + 1 then 0 else |prices| - period - 1
  {
    if |prices| < period + 1 then []
    else seq(|prices| - period - 1, m requires 0 <= m < |prices| - period - 1 => RsiAt(prices, period, m))
  }

  /** The loop at lines 62-66: one gain and one loss per consecutive pair of prices. */
  method PriceChanges(prices: seq<real>) returns (gains: seq<real>, losses: seq<real>)
    ensures gains == Gains(prices) && losses == Losses(prices)
  {
    gains, losses := [], [];
    if |prices| == 0 {
      return;
    }
    for i := 1 to |prices|
      invariant gains == Gains(prices[..i]) && losses == Losses(prices[..i])
    {
      var change := prices[i] - prices[i - 1];
      gains := gains + [Gain(change)];
      losses := losses + [Loss(change)];
      assert prices[..i + 1][..i] == prices[..i];
    }
    assert prices[..|prices|] == prices;
  }

  method CalculateRSI(prices: seq<real>, period: nat) returns (rsi: seq<real>)
    requires period > 0
    ensures |rsi| == if |prices| < period + 1 then 0 else |prices| - period - 1
    ensures forall m :: 0 <= m < |rsi| ==> 0.0 <= rsi[m] < 100.0
    ensures rsi == RsiSpec(prices, period)
  {
    if |prices| < period + 1 {
      return [];
    }
    rsi := [];
    var gains, losses := PriceChanges(prices);
    var avgGain := Sum(gains[..period]) / period as real;
    var avgLoss := Sum(losses[..period]) / period as real;
    for i := period to |gains|
      invariant avgGain == WilderAt(gains, period, i - period)
      invariant avgLoss == WilderAt(losses, period, i - period)
      invariant |rsi| == i - period
      invariant forall m :: 0 <= m < |rsi| ==> rsi[m] == RsiAt(prices, period, m)
    {
      avgGain := Wilder(avgGain, period, gains[i]);
      avgLoss := Wilder(avgLoss, period, losses[i]);
      ChangesNonNegative(prices);
      WilderAtLeast(gains, period, i - period + 1, 0.0);
      WilderAtLeast(losses, period, i - period + 1, 0.0);
      rsi := rsi + [RsiValue(avgGain, avgLoss)];
    }
  }

  /** When no step is a loss, every RSI value is exactly 100 − 100/101 (never 100). */
  lemma RsiWithoutLosses(prices: seq<real>, period: nat)
    requires period > 0 && forall i :: 0 <= i < |prices| - 1 ==> prices[i] <= prices[i + 1]
    ensures forall m :: 0 <= m < |RsiSpec(prices, period)| ==> RsiSpec(prices, period)[m] == 100.0 - 100.0 / 101.0
  {
    var losses := Losses(prices);
    assert AllAtMost(losses, 0.0) by {
      forall i | 0 <= i < |losses|
        ensures losses[i] <= 0.0
      {
        ChangesAt(prices, i);
      }
    }
    ChangesNonNegative(prices);
    forall m | 0 <= m < |RsiSpec(prices, period)|
      ensures RsiSpec(prices, period)[m] == 100.0 - 100.0 / 101.0
    {
      WilderAtMost(losses, period, m + 1, 0.0);
      WilderAtLeast(losses, period, m + 1, 0.0);
    }
  }

  /** When every step is a loss, every RSI value is 0. */
  lemma RsiAllLosses(prices: seq<real>, period: nat)
    requires period > 0 && forall i :: 0 <= i < |prices| - 1 ==> prices[i + 1] < prices[i]
    ensures forall m :: 0 <= m < |RsiSpec(prices, period)| ==> RsiSpec(prices, period)[m] == 0.0
  {
    var gains, losses := Gains(prices), Losses(prices);
    assert AllAtMost(gains, 0.0) && forall i :: 0 <= i < |losses| ==> losses[i] > 0.0 by {
      forall i | 0 <= i < |losses|
        ensures gains[i] <= 0.0 && losses[i] > 0.0
      {
        ChangesAt(prices, i);
      }
    }
    ChangesNonNegative(prices);
    forall m | 0 <= m < |RsiSpec(prices, period)|
      ensures RsiSpec(prices, period)[m] == 0.0
    {
      WilderAtMost(gains, period, m + 1, 0.0);
      WilderAtLeast(gains, period, m + 1, 0.0);
      WilderPositive(losses, period, m + 1);
    }
  }

  // ---------------------------------------------------------------------------
  // MACD (lines 88-114)

  /**
   * `a[i + offset] − b[i]` for every index of `b`: the shape of both the MACD line
   * (fast EMA against slow EMA) and the histogram (MACD line against signal line).
   */
  ghost function AlignedDifference(a: seq<real>, b: seq<real>, offset: nat): (d: seq<real>)
    requires |b| == 0 || |b| + offset <= |a|
    ensures |d| == |b|
  {
    seq(|b|, i requires 0 <= i < |b| => a[i + offset] - b[i])
  }

  ghost function MacdSpec(prices: seq<real>, fastPeriod: nat, slowPeriod: nat, signalPeriod: nat): (r: Macd)
    requires 0 < fastPeriod <= slowPeriod && signalPeriod > 0
    ensures |r.macd| == |EmaSpec(prices, slowPeriod)|
    ensures |r.histogram| == |r.signal| == |EmaSpec(r.macd, signalPeriod)|
  {
    var line := AlignedDifference(EmaSpec(prices, fastPeriod), EmaSpec(prices, slowPeriod), slowPeriod - fastPeriod);
    var signal := EmaSpec(line, signalPeriod);
    Macd(line, signal, AlignedDifference(line, signal, signalPeriod - 1))
  }

  method CalculateMACD(prices: seq<real>, fastPeriod: nat, slowPeriod: nat, signalPeriod: nat) returns (r: Macd)
    requires 0 < fastPeriod <= slowPeriod && signalPeriod > 0
    ensures |r.macd| == if |prices| < slowPeriod then 0 else |prices| - slowPeriod + 1
    ensures r == MacdSpec(prices, fastPeriod, slowPeriod, signalPeriod)
  {
    var macdLine := MacdLine(prices, fastPeriod, slowPeriod);
    var signalLine := CalculateEMA(macdLine, signalPeriod);
    var histogram := SubtractAligned(macdLine, signalLine, signalPeriod - 1);
    r := Macd(macdLine, signalLine, histogram);
  }

  /** The MACD line: the fast EMA minus the slow EMA, aligned on the newest value. */
  method MacdLine(prices: seq<real>, fastPeriod: nat, slowPeriod: nat) returns (macdLine: seq<real>)
    requires 0 < fastPeriod <= slowPeriod
    ensures |macdLine| == |EmaSpec(prices, slowPeriod)|
    ensures macdLine == AlignedDifference(EmaSpec(prices, fastPeriod), EmaSpec(prices, slowPeriod), slowPeriod - fastPeriod)
  {
    var emaFast := CalculateEMA(prices, fastPeriod);
    var emaSlow := CalculateEMA(prices, slowPeriod);
    macdLine := SubtractAligned(emaFast, emaSlow, slowPeriod - fastPeriod);
  }

  /** Each MACD value is the fast EMA minus the slow EMA on the same day. */
  lemma MacdLineAt(prices: seq<real>, fastPeriod: nat, slowPeriod: nat, signalPeriod: nat, i: nat)
    requires 0 < fastPeriod <= slowPeriod && signalPeriod > 0
    requires i < |MacdSpec(prices, fastPeriod, slowPeriod, signalPeriod).macd|
    ensures MacdSpec(prices, fastPeriod, slowPeriod, signalPeriod).macd[i] ==
      EmaSpec(prices, fastPeriod)[i + (slowPeriod - fastPeriod)] - EmaSpec(prices, slowPeriod)[i]
  {
  }

  /**
   * The signal line is the EMA of the MACD line, and each histogram value is the MACD
   * value minus the signal value on the same day.
   */
  lemma MacdHistogramAt(prices: seq<real>, fastPeriod: nat, slowPeriod: nat, signalPeriod: nat, i: nat)
    requires 0 < fastPeriod <= slowPeriod && signalPeriod > 0
    requires i < |MacdSpec(prices, fastPeriod, slowPeriod, signalPeriod).histogram|
    ensures var r := MacdSpec(prices, fastPeriod, slowPeriod, signalPeriod);
      && r.signal == EmaSpec(r.macd, signalPeriod)
      && r.histogram[i] == r.macd[i + (signalPeriod - 1)] - r.signal[i]
  {
  }

  /** The newest histogram value is the newest MACD value minus the newest signal value. */
  lemma MacdNewestHistogram(prices: seq<real>, fastPeriod: nat, slowPeriod: nat, signalPeriod: nat)
    requires 0 < fastPeriod <= slowPeriod && signalPeriod > 0
    requires |MacdSpec(prices, fastPeriod, slowPeriod, signalPeriod).histogram| > 0
    ensures var r := MacdSpec(prices, fastPeriod, slowPeriod, signalPeriod);
      Last(r.histogram) == Last(r.macd) - Last(r.signal)
  {
    var r := MacdSpec(prices, fastPeriod, slowPeriod, signalPeriod);
    var n := |r.histogram|;
    assert |r.macd| == n + (signalPeriod - 1);
    MacdHistogramAt(prices, fastPeriod, slowPeriod, signalPeriod, n - 1);
  }

  /**
   * The loops at lines 95-97 and 106-107: push `a[i + offset] − b[i]` for every index of `b`.
   * Every read of `a` is in bounds whenever `b` is non-empty and `|b| + offset <= |a|`.
   */
  method SubtractAligned(a: seq<real>, b: seq<real>, offset: nat) returns (d: seq<real>)
    requires |b| == 0 || |b| + offset <= |a|
    ensures |d| == |b|
    ensures forall i :: 0 <= i < |b| ==> d[i] == a[i + offset] - b[i]
    ensures d == AlignedDifference(a, b, offset)
  {
    d := [];
    for i := 0 to |b|
      invariant |d| == i
      invariant forall j :: 0 <= j < i ==> d[j] == a[j + offset] - b[j]
    {
      d := d + [a[i + offset] - b[i]];
    }
  }

  // ---------------------------------------------------------------------------
  // Bollinger Bands (lines 119-139)

  /** `s.reduce((sum, val) => sum + (val − mean)², 0)`. */
  function SquaredDeviations(s: seq<real>, mean: real): (r: real)
    ensures r >= 0.0
    decreases |s|
  {
    if |s| == 0 then 0.0
    else
      var d := s[|s| - 1] - mean;
      SquaredDeviations(s[..|s| - 1], mean) + d * d
  }

  /** The population variance of the window starting at `j`. */
  ghost function WindowVariance(prices: seq<real>, period: nat, j: nat): (v: real)
    requires period > 0 && j + period <= |prices|
    ensures v >= 0.0
  {
    var w := prices[j..j + period];
    SquaredDeviations(w, Sum(w) / period as real) / period as real
  }

  /**
   * The distance of either band from the middle band at window `j`: `stdDev` standard
   * deviations, where `Math.sqrt` is the parameter `sqrt`.
   */
  ghost function BandWidth(prices: seq<real>, period: nat, stdDev: real, sqrt: real -> real, j: nat): real
    requires period > 0 && j + period <= |prices|
  {
    stdDev * sqrt(WindowVariance(prices, period, j))
  }

  /**
   * The bands need only that `sqrt` is non-negative on non-negative arguments.  Each
   * band sits `BandWidth` away from the SMA, so the bands are symmetric about it, and
   * with a non-negative multiplier the lower band is below and the upper band above it.
   */
  method CalculateBollingerBands(prices: seq<real>, period: nat, stdDev: real, sqrt: real -> real) returns (b: Bands)
    requires period > 0
    requires forall x :: 0.0 <= x ==> 0.0 <= sqrt(x)
    ensures b.middle == SmaSpec(prices, period)
    ensures |b.upper| == |b.middle| && |b.lower| == |b.middle|
    ensures forall j :: 0 <= j < |b.middle| ==>
      b.upper[j] == b.middle[j] + BandWidth(prices, period, stdDev, sqrt, j) &&
      b.lower[j] == b.middle[j] - BandWidth(prices, period, stdDev, sqrt, j)
    ensures forall j :: 0 <= j < |b.middle| ==> b.upper[j] - b.middle[j] == b.middle[j] - b.lower[j]
    ensures stdDev >= 0.0 ==> forall j :: 0 <= j < |b.middle| ==> b.lower[j] <= b.middle[j] <= b.upper[j]
  {
    var sma := CalculateSMA(prices, period);
    var upperBand: seq<real> := [];
    var lowerBand: seq<real> := [];
    if |prices| >= period {
      for i := period - 1 to |prices|
        invariant |upperBand| == i - period + 1 && |lowerBand| == i - period + 1
        invariant forall j :: 0 <= j < |upperBand| ==>
          upperBand[j] == sma[j] + BandWidth(prices, period, stdDev, sqrt, j) &&
          lowerBand[j] == sma[j] - BandWidth(prices, period, stdDev, sqrt, j)
      {
        var slice := prices[i - period + 1..i + 1];
        var mean := Sum(slice) / period as real;
        var variance := SquaredDeviations(slice, mean) / period as real;
        var sd := sqrt(variance);
        assert stdDev * sd == BandWidth(prices, period, stdDev, sqrt, i - period + 1);
        upperBand := upperBand + [sma[i - period + 1] + stdDev * sd];
        lowerBand := lowerBand + [sma[i - period + 1] - stdDev * sd];
      }
    }
    b := Bands(sma, upperBand, lowerBand);
    forall j | 0 <= j < |b.middle| && stdDev >= 0.0
      ensures b.lower[j] <= b.middle[j] <= b.upper[j]
    {
      BandWidthNonNegative(prices, period, stdDev, sqrt, j);
    }
  }

  /** With a non-negative multiplier and a non-negative square root, the band width is non-negative. */
  lemma BandWidthNonNegative(prices: seq<real>, period: nat, stdDev: real, sqrt: real -> real, j: nat)
    requires period > 0 && j + period <= |prices|
    requires forall x :: 0.0 <= x ==> 0.0 <= sqrt(x)
    requires stdDev >= 0.0
    ensures BandWidth(prices, period, stdDev, sqrt, j) >= 0.0
  {
    MulNonNegative(stdDev, sqrt(WindowVariance(prices, period, j)));
  }

  // ---------------------------------------------------------------------------
  // ATR (lines 144-163)

  /** `Math.max(high − low, |high − prevClose|, |low − prevClose|)`. */
  function TrueRange(bar: PriceData, prevClose: real): (tr: real)
    ensures tr >= 0.0
    ensures tr >= bar.high - bar.low && tr >= Abs(bar.high - prevClose) && tr >= Abs(bar.low - prevClose)
    ensures tr == bar.high - bar.low || tr == Abs(bar.high - prevClose) || tr == Abs(bar.low - prevClose)
  {
    Max(Max(bar.high - bar.low, Abs(bar.high - prevClose)), Abs(bar.low - prevClose))
  }

  /** One true range per bar after the first, against the previous bar's close. */
  ghost function TrueRanges(data: seq<PriceData>): (trs: seq<real>)
    ensures |trs| == if |data| == 0 then 0 else |data| - 1
    decreases |data|
  {
    if |data| <= 1 then []
    else TrueRanges(data[..|data| - 1]) + [TrueRange(data[|data| - 1], data[|data| - 2].close)]
  }

  lemma {:induction false} TrueRangesNonNegative(data: seq<PriceData>)
    ensures AllAtLeast(TrueRanges(data), 0.0)
    decreases |data|
  {
    if |data| > 1 {
      TrueRangesNonNegative(data[..|data| - 1]);
    }
  }

  method CalculateATR(data: seq<PriceData>, period: nat) returns (atr: seq<real>)
    requires period > 0
    ensures |atr| == if |data| < period + 1 then 0 else |data| - period
    ensures forall j :: 0 <= j < |atr| ==> atr[j] >= 0.0
    ensures atr == EmaSpec(TrueRanges(data), period)
  {
    if |data| < period + 1 {
      return [];
    }
    var trueRanges: seq<real> := [];
    for i := 1 to |data|
      invariant trueRanges == TrueRanges(data[..i])
    {
      var high := data[i].high;
      var low := data[i].low;
      var prevClose := data[i - 1].close;
      var tr := Max(Max(high - low, Abs(high - prevClose)), Abs(low - prevClose));
      trueRanges := trueRanges + [tr];
      assert data[..i + 1][..i] == data[..i];
    }
    assert data[..|data|] == data;
    TrueRangesNonNegative(data);
    atr := CalculateEMA(trueRanges, period);
    EmaWithin(trueRanges, period, 0.0, Max(Sum(trueRanges), 0.0)) by {
      assert AllAtMost(trueRanges, Max(Sum(trueRanges), 0.0)) by {
        SumBoundsEach(trueRanges);
      }
    }
  }

  /** Each element of a non-negative sequence is at most its sum. */
  lemma {:induction false} SumBoundsEach(s: seq<real>)
    requires AllAtLeast(s, 0.0)
    ensures AllAtMost(s, Sum(s))
    decreases |s|
  {
    if |s| > 0 {
      var init := s[..|s| - 1];
      assert AllAtLeast(init, 0.0);
      SumBoundsEach(init);
      SumAtLeast(init, 0.0);
      forall i | 0 <= i < |s|
        ensures s[i] <= Sum(s)
      {
        if i < |s| - 1 {
          assert s[i] == init[i];
        }
      }
    }
  }

  // ---------------------------------------------------------------------------
  // Stochastic oscillator (lines 168-188)

  /** `Math.max(...bars.map(d => d.high))`. */
  function MaxHigh(bars: seq<PriceData>): (h: real)
    requires |bars| > 0
    ensures forall i :: 0 <= i < |bars| ==> bars[i].high <= h
    ensures exists i :: 0 <= i < |bars| && bars[i].high == h
    decreases |bars|
  {
    if |bars| == 1 then bars[0].high
    else
      var init := bars[..|bars| - 1];
      var m := MaxHigh(init);
      assert forall i :: 0 <= i < |init| ==> bars[i] == init[i];
      Max(m, bars[|bars| - 1].high)
  }

  /** `Math.min(...bars.map(d => d.low))`. */
  function MinLow(bars: seq<PriceData>): (l: real)
    requires |bars| > 0
    ensures forall i :: 0 <= i < |bars| ==> l <= bars[i].low
    ensures exists i :: 0 <= i < |bars| && bars[i].low == l
    decreases |bars|
  {
    if |bars| == 1 then bars[0].low
    else
      var init := bars[..|bars| - 1];
      var m := MinLow(init);
      assert forall i :: 0 <= i < |init| ==> bars[i] == init[i];
      Min(m, bars[|bars| - 1].low)
  }

  /** The `period` bars starting at index `j`. */
  function Window(data: seq<PriceData>, period: nat, j: nat): (w: seq<PriceData>)
    requires j + period <= |data|
    ensures |w| == period
  {
    data[j..j + period]
  }

  /** Every full window has a positive high − low range (the division at line 177 is unguarded). */
  ghost predicate NonFlatWindows(data: seq<PriceData>, period: nat)
    requires period > 0
  {
    forall j :: 0 <= j <= |data| - period ==> MinLow(Window(data, period, j)) < MaxHigh(Window(data, period, j))
  }

  ghost predicate WellFormedBar(bar: PriceData)
  {
    bar.low <= bar.close <= bar.high
  }

  /** %K of one window: where the last close sits in the window's low–high range, in percent. */
  function StochasticK(window: seq<PriceData>): (k: real)
    requires |window| > 0 && MinLow(window) < MaxHigh(window)
    ensures WellFormedBar(window[|window| - 1]) ==> 0.0 <= k <= 100.0
  {
    var high := MaxHigh(window);
    var low := MinLow(window);
    var close := window[|window| - 1].close;
    var ratio := (close - low) / (high - low);
    assert WellFormedBar(window[|window| - 1]) ==> 0.0 <= ratio <= 1.0 by {
      if WellFormedBar(window[|window| - 1]) {
        DivAtLeast(close - low, high - low, 0.0);
        DivAtMost(close - low, high - low, 1.0);
      }
    }
    ratio * 100.0
  }

  ghost function KSpec(data: seq<PriceData>, period: nat): (k: seq<real>)
    requires period > 0 && NonFlatWindows(data, period)
    ensures |k| == if |data| < period then 0 else |data| - period + 1
  {
    if |data| < period then []
    else seq(|data| - period + 1, j requires 0 <= j < |data| - period + 1 => StochasticK(Window(data, period, j)))
  }

  method CalculateStochastic(data: seq<PriceData>, period: nat) returns (s: Stochastic)
    requires period > 0 && NonFlatWindows(data, period)
    ensures |s.k| == if |data| < period then 0 else |data| - period + 1
    ensures |s.d| == if |s.k| < 3 then 0 else |s.k| - 2
    ensures s.k == KSpec(data, period)
    ensures s.d == SmaSpec(s.k, 3)
  {
    var kValues: seq<real> := [];
    if |data| >= period {
      for i := period - 1 to |data|
        invariant |kValues| == i - period + 1
        invariant forall j :: 0 <= j < |kValues| ==> kValues[j] == StochasticK(Window(data, period, j))
      {
        var slice := data[i - period + 1..i + 1];
        assert slice == Window(data, period, i - period + 1);
        kValues := kValues + [StochasticK(slice)];
      }
      assert kValues == KSpec(data, period);
    }
    var dValues := CalculateSMA(kValues, 3);
    s := Stochastic(kValues, dValues);
  }

  /** When every bar's close lies between its low and its high, %K and %D lie in [0, 100]. */
  lemma StochasticWithin(data: seq<PriceData>, period: nat)
    requires period > 0 && NonFlatWindows(data, period)
    requires forall i :: 0 <= i < |data| ==> WellFormedBar(data[i])
    ensures AllAtLeast(KSpec(data, period), 0.0) && AllAtMost(KSpec(data, period), 100.0)
    ensures AllAtLeast(SmaSpec(KSpec(data, period), 3), 0.0) && AllAtMost(SmaSpec(KSpec(data, period), 3), 100.0)
  {
    var k := KSpec(data, period);
    forall j | 0 <= j < |k|
      ensures 0.0 <= k[j] <= 100.0
    {
      var w := Window(data, period, j);
      assert w[period - 1] == data[j + period - 1];
    }
    SmaWithin(k, 3, 0.0, 100.0);
  }

  // ---------------------------------------------------------------------------
  // Snapshot (lines 193-216)

  ghost function SnapshotSpec(prices: seq<real>): (r: Option<Snapshot>)
    ensures r.None? <==> |prices| < 50
  {
    if |prices| < 50 then None
    else
      var m := MacdSpec(prices, 12, 26, 9);
      Some(Snapshot(
        Last(prices), Last(SmaSpec(prices, 20)), Last(SmaSpec(prices, 50)),
        Last(EmaSpec(prices, 12)), Last(EmaSpec(prices, 26)), Last(RsiSpec(prices, 14)),
        Last(m.macd), Last(m.signal), Last(m.histogram)))
  }

  method GetCurrentIndicators(prices: seq<real>) returns (r: Option<Snapshot>)
    ensures r.None? <==> |prices| < 50
    ensures r == SnapshotSpec(prices)
  {
    if |prices| < 50 {
      return None;
    }
    var sma20 := CalculateSMA(prices, 20);
    var sma50 := CalculateSMA(prices, 50);
    var ema12 := CalculateEMA(prices, 12);
    var ema26 := CalculateEMA(prices, 26);
    var rsi := CalculateRSI(prices, 14);
    var macd := CalculateMACD(prices, 12, 26, 9);
    r := Some(Snapshot(
      prices[|prices| - 1],
      sma20[|sma20| - 1],
      sma50[|sma50| - 1],
      ema12[|ema12| - 1],
      ema26[|ema26| - 1],
      rsi[|rsi| - 1],
      macd.macd[|macd.macd| - 1],
      macd.signal[|macd.signal| - 1],
      macd.histogram[|macd.histogram| - 1]));
  }

  /**
   * What the snapshot reports: the newest price, the means of the newest 20 and 50 prices,
   * a MACD value that is the 12-day EMA minus the 26-day EMA on the newest day, a
   * histogram value that is MACD minus signal, and an RSI in [0, 100).
   */
  lemma SnapshotMeaning(prices: seq<real>)
    requires |prices| >= 50
    ensures SnapshotSpec(prices).Some?
    ensures var v := SnapshotSpec(prices).value;
      && v.currentPrice == prices[|prices| - 1]
      && v.sma20 == Sum(prices[|prices| - 20..]) / 20.0
      && v.sma50 == Sum(prices[|prices| - 50..]) / 50.0
      && v.macd == v.ema12 - v.ema26
      && v.macdHistogram == v.macd - v.macdSignal
      && 0.0 <= v.rsi < 100.0
  {
    var n := |prices|;
    assert prices[n - 20..] == prices[n - 20..n - 20 + 20];
    assert prices[n - 50..] == prices[n - 50..n - 50 + 50];
    var m := MacdSpec(prices, 12, 26, 9);
    MacdLineAt(prices, 12, 26, 9, |m.macd| - 1);
    MacdNewestHistogram(prices, 12, 26, 9);
  }

  /**
   * For a constant series of at least 50 prices every average equals the price, MACD,
   * signal and histogram are 0, and RSI is 100 − 100/101 (there is never an average loss).
   */
  lemma ConstantSeriesSnapshot(prices: seq<real>, c: real)
    requires |prices| >= 50 && forall i :: 0 <= i < |prices| ==> prices[i] == c
    ensures SnapshotSpec(prices) == Some(Snapshot(c, c, c, c, c, 100.0 - 100.0 / 101.0, 0.0, 0.0, 0.0))
  {
    ConstantSeriesAverages(prices, 20, c);
    ConstantSeriesAverages(prices, 50, c);
    ConstantSeriesAverages(prices, 12, c);
    ConstantSeriesAverages(prices, 26, c);
    RsiWithoutLosses(prices, 14);
    var m := MacdSpec(prices, 12, 26, 9);
    assert forall i :: 0 <= i < |m.macd| ==> m.macd[i] == 0.0;
    ConstantSeriesAverages(m.macd, 9, 0.0);
  }
}
