/**
 * The deterministic arithmetic of lib/mock-data.ts: the price statistics of a bar series
 * (`calculatePriceStats`, lines 120-142) and the derived fields of each portfolio position
 * (`generateMockPortfolio`, lines 70-84).
 */
module MockData {
  import opened Indicators

  // ---------------------------------------------------------------------------
  // Price statistics (lines 120-142)

  datatype PriceStats = PriceStats(
    current: real, min: real, max: real, change: real, changePercent: real,
    avgVolume: real, high52Week: real, low52Week: real)

  /** `data.map(d => d.close)`. */
  function Closes(data: seq<PriceData>): (c: seq<real>)
    ensures |c| == |data| && forall i :: 0 <= i < |data| ==> c[i] == data[i].close
  {
    seq(|data|, i requires 0 <= i < |data| => data[i].close)
  }

  /** `data.map(d => d.volume)`. */
  function Volumes(data: seq<PriceData>): (v: seq<real>)
    ensures |v| == |data| && forall i :: 0 <= i < |data| ==> v[i] == data[i].volume
  {
    seq(|data|, i requires 0 <= i < |data| => data[i].volume)
  }

  /** `Math.min(...s)` on a non-empty list: a lower bound that is one of the elements. */
  function MinOf(s: seq<real>): (m: real)
    requires |s| > 0
    ensures AllAtLeast(s, m)
    ensures exists i :: 0 <= i < |s| && s[i] == m
    decreases |s|
  {
    if |s| == 1 then s[0]
    else
      var init := s[..|s| - 1];
      assert forall i :: 0 <= i < |init| ==> s[i] == init[i];
      Min(MinOf(init), s[|s| - 1])
  }

  /** `Math.max(...s)` on a non-empty list: an upper bound that is one of the elements. */
  function MaxOf(s: seq<real>): (m: real)
    requires |s| > 0
    ensures AllAtMost(s, m)
    ensures exists i :: 0 <= i < |s| && s[i] == m
    decreases |s|
  {
    if |s| == 1 then s[0]
    else
      var init := s[..|s| - 1];
      assert forall i :: 0 <= i < |init| ==> s[i] == init[i];
      Max(MaxOf(init), s[|s| - 1])
  }

  /**
   * The statistics of a non-empty series whose first close is not zero: the newest close,
   * the lowest and highest close (also the 52-week low and high), the change since the
   * first close, absolute and in percent, and the mean volume.
   */
  function CalculatePriceStats(data: seq<PriceData>): (r: PriceStats)
    requires |data| > 0 && data[0].close != 0.0
    ensures forall i :: 0 <= i < |data| ==> r.min <= data[i].close <= r.max
    ensures (exists i :: 0 <= i < |data| && data[i].close == r.min) && (exists i :: 0 <= i < |data| && data[i].close == r.max)
    ensures r.current == data[|data| - 1].close && r.min <= r.current <= r.max
    ensures r.min <= data[0].close <= r.max
    ensures r.change == r.current - data[0].close
    ensures r.changePercent == r.change / data[0].close * 100.0
    ensures r.high52Week == r.max && r.low52Week == r.min
    ensures r.avgVolume == Sum(Volumes(data)) / |data| as real
  {
    var closes := Closes(data);
    var min := MinOf(closes);
    var max := MaxOf(closes);
    var current := closes[|closes| - 1];
    var first := closes[0];
    var change := current - first;
    var changePercent := (change / first) * 100.0;
    var volumes := Volumes(data);
    var avgVolume := Sum(volumes) / |volumes| as real;
    PriceStats(current, min, max, change, changePercent, avgVolume, max, min)
  }

  /**
   * The mean volume of any non-empty series lies between the lowest and the highest
   * volume, and it is the `avgVolume` of the statistics wherever those are defined.
   */
  lemma AvgVolumeWithin(data: seq<PriceData>)
    requires |data| > 0
    ensures MinOf(Volumes(data)) <= Sum(Volumes(data)) / |data| as real <= MaxOf(Volumes(data))
    ensures data[0].close != 0.0 ==> CalculatePriceStats(data).avgVolume == Sum(Volumes(data)) / |data| as real
  {
    var v := Volumes(data);
    MeanWithin(v, |v|, MinOf(v), MaxOf(v));
  }

  /** A percentage of a positive base has the sign of the amount. */
  lemma PercentSign(amount: real, base: real)
    requires base > 0.0
    ensures (amount / base * 100.0 > 0.0 <==> amount > 0.0) && (amount / base * 100.0 < 0.0 <==> amount < 0.0)
  {
    if amount > 0.0 {
      DivPositive(amount, base);
    } else if amount < 0.0 {
      DivPositive(-amount, base);
      assert (-amount) / base == -(amount / base);
    }
  }

  /** With a positive first close, the percentage change has the sign of the change. */
  lemma ChangePercentSign(data: seq<PriceData>)
    requires |data| > 0 && data[0].close > 0.0
    ensures var r := CalculatePriceStats(data);
      (r.changePercent > 0.0 <==> r.current > data[0].close) &&
      (r.changePercent < 0.0 <==> r.current < data[0].close)
  {
    var r := CalculatePriceStats(data);
    PercentSign(r.change, data[0].close);
  }

  // ---------------------------------------------------------------------------
  // Portfolio (lines 70-84)

  datatype Position = Position(symbol: string, shares: real, avgCost: real, currentPrice: real, change: real)

  /** A position with the four derived fields. */
  datatype Holding = Holding(
    position: Position, marketValue: real, totalCost: real, unrealizedPL: real, unrealizedPLPercent: real)

  /**
   * The mapping at lines 77-83.  The unrealized profit is the market value minus the cost,
   * and the percentage profit, against a positive average cost, has the sign of
   * `currentPrice − avgCost`.
   */
  function Derive(p: Position): (h: Holding)
    requires p.avgCost != 0.0
    ensures h.position == p
    ensures h.marketValue == p.shares * p.currentPrice && h.totalCost == p.shares * p.avgCost
    ensures h.unrealizedPL == h.marketValue - h.totalCost
    ensures h.unrealizedPLPercent == (p.currentPrice - p.avgCost) / p.avgCost * 100.0
  {
    var pl := (p.currentPrice - p.avgCost) * p.shares;
    assert pl == p.shares * p.currentPrice - p.shares * p.avgCost;
    Holding(p, p.shares * p.currentPrice, p.shares * p.avgCost, pl, ((p.currentPrice - p.avgCost) / p.avgCost) * 100.0)
  }

  /** Against a positive average cost, the percentage profit has the sign of the price gain. */
  lemma ProfitPercentSign(p: Position)
    requires p.avgCost > 0.0
    ensures var h := Derive(p);
      (h.unrealizedPLPercent > 0.0 <==> p.currentPrice > p.avgCost) &&
      (h.unrealizedPLPercent < 0.0 <==> p.currentPrice < p.avgCost)
  {
    PercentSign(p.currentPrice - p.avgCost, p.avgCost);
  }

  /** The five seeded positions, in order. */
  function SeedPositions(): (s: seq<Position>)
    ensures |s| == 5 && forall i :: 0 <= i < |s| ==> s[i].avgCost > 0.0
  {
    [ Position("AAPL", 50.0, 145.20, 150.25, 2.5),
      Position("GOOGL", 10.0, 2750.00, 2845.50, 1.8),
      Position("MSFT", 40.0, 375.80, 380.75, -0.3),
      Position("TSLA", 25.0, 235.00, 245.80, 5.2),
      Position("NVDA", 15.0, 785.00, 820.50, 3.8) ]
  }

  /** `generateMockPortfolio()`: every seeded position with its derived fields. */
  function MockPortfolio(): (h: seq<Holding>)
    ensures |h| == |SeedPositions()|
    ensures forall i :: 0 <= i < |h| ==> h[i] == Derive(SeedPositions()[i])
  {
    var s := SeedPositions();
    seq(|s|, i requires 0 <= i < |s| => Derive(s[i]))
  }

  /** Every seeded position trades above its average cost, so every one shows a profit. */
  lemma MockPortfolioInProfit()
    ensures forall i :: 0 <= i < |MockPortfolio()| ==>
      MockPortfolio()[i].unrealizedPL > 0.0 && MockPortfolio()[i].unrealizedPLPercent > 0.0
  {
    var s := SeedPositions();
    forall i | 0 <= i < |s|
      ensures Derive(s[i]).unrealizedPL > 0.0 && Derive(s[i]).unrealizedPLPercent > 0.0
    {
      assert s[i].currentPrice > s[i].avgCost && s[i].shares > 0.0;
      MulNonNegative(s[i].currentPrice - s[i].avgCost, s[i].shares);
      ProfitPercentSign(s[i]);
      assert (s[i].currentPrice - s[i].avgCost) * s[i].shares != 0.0;
    }
  }
}
