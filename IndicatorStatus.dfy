/**
 * The three labels of the technical-indicators card (components/technical-indicators-card.tsx,
 * lines 27-42): the RSI zone, the MACD crossover side and the moving-average trend, each with
 * the text and the colour class the card shows.
 */
module IndicatorStatus {
  import opened Common
  import opened Indicators

  datatype RsiStatus = Overbought | Oversold | Neutral
  {
    function Text(): string
    {
      match this
      case Overbought => "Overbought"
      case Oversold => "Oversold"
      case Neutral => "Neutral"
    }

    function Color(): string
    {
      match this
      case Overbought => "text-red-600 dark:text-red-400"
      case Oversold => "text-green-600 dark:text-green-400"
      case Neutral => "text-gray-600 dark:text-gray-400"
    }
  }

  datatype MacdStatus = Bullish | Bearish
  {
    function Text(): string
    {
      match this
      case Bullish => "Bullish"
      case Bearish => "Bearish"
    }

    function Color(): string
    {
      match this
      case Bullish => "text-green-600 dark:text-green-400"
      case Bearish => "text-red-600 dark:text-red-400"
    }
  }

  datatype TrendStatus = StrongUptrend | StrongDowntrend | Sideways
  {
    function Text(): string
    {
      match this
      case StrongUptrend => "Strong Uptrend"
      case StrongDowntrend => "Strong Downtrend"
      case Sideways => "Sideways"
    }

    function Color(): string
    {
      match this
      case StrongUptrend => "text-green-600 dark:text-green-400"
      case StrongDowntrend => "text-red-600 dark:text-red-400"
      case Sideways => "text-gray-600 dark:text-gray-400"
    }
  }

  /** `getRSIStatus`: above 70 is overbought, below 30 oversold, and 30 to 70 inclusive neutral. */
  function GetRsiStatus(rsi: real): (s: RsiStatus)
    ensures s == Overbought <==> rsi > 70.0
    ensures s == Oversold <==> rsi < 30.0
    ensures s == Neutral <==> 30.0 <= rsi <= 70.0
  {
    if rsi > 70.0 then Overbought
    else if rsi < 30.0 then Oversold
    else Neutral
  }

  /** `getMACDStatus`: bullish exactly when the MACD line is strictly above its signal line. */
  function GetMacdStatus(macd: real, signal: real): (s: MacdStatus)
    ensures s == Bullish <==> macd > signal
    ensures s == Bearish <==> macd <= signal
  {
    if macd > signal then Bullish else Bearish
  }

  /**
   * `getTrendStatus`: a strong uptrend when the price is above the 20-period average and
   * that is above the 50-period average, a strong downtrend when both are strictly below,
   * and sideways otherwise.
   */
  function GetTrendStatus(price: real, sma20: real, sma50: real): (s: TrendStatus)
    ensures s == StrongUptrend <==> price > sma20 && sma20 > sma50
    ensures s == StrongDowntrend <==> price < sma20 && sma20 < sma50
    ensures s == Sideways <==> !(price > sma20 && sma20 > sma50) && !(price < sma20 && sma20 < sma50)
  {
    if price > sma20 && sma20 > sma50 then StrongUptrend
    else if price < sma20 && sma20 < sma50 then StrongDowntrend
    else Sideways
  }

  /** The labels the card shows for a snapshot. */
  function CardStatus(v: Snapshot): (r: (RsiStatus, MacdStatus, TrendStatus))
    ensures r.0 == GetRsiStatus(v.rsi)
    ensures r.1 == Bullish <==> v.macd > v.macdSignal
    ensures r.2 == GetTrendStatus(v.currentPrice, v.sma20, v.sma50)
  {
    (GetRsiStatus(v.rsi), GetMacdStatus(v.macd, v.macdSignal), GetTrendStatus(v.currentPrice, v.sma20, v.sma50))
  }

  /**
   * On a computed snapshot the MACD label is bullish exactly when the newest histogram bar
   * is positive.
   */
  lemma MacdStatusFollowsHistogram(prices: seq<real>)
    requires |prices| >= 50
    ensures SnapshotSpec(prices).Some?
    ensures var v := SnapshotSpec(prices).value;
      CardStatus(v).1 == Bullish <==> v.macdHistogram > 0.0
  {
    SnapshotMeaning(prices);
  }

  /**
   * A flat series has no losses, so the RSI is pinned near 100 and the card reads
   * overbought; the MACD equals its signal (bearish) and the trend is sideways.
   */
  lemma ConstantSeriesStatus(prices: seq<real>, c: real)
    requires |prices| >= 50 && forall i :: 0 <= i < |prices| ==> prices[i] == c
    ensures SnapshotSpec(prices).Some?
    ensures CardStatus(SnapshotSpec(prices).value) == (Overbought, Bearish, Sideways)
  {
    ConstantSeriesSnapshot(prices, c);
  }

  /** A strictly falling series of at least 50 closes has an RSI of 0 and reads oversold. */
  lemma FallingSeriesOversold(prices: seq<real>)
    requires |prices| >= 50 && forall i :: 0 <= i < |prices| - 1 ==> prices[i + 1] < prices[i]
    ensures SnapshotSpec(prices).Some?
    ensures SnapshotSpec(prices).value.rsi == 0.0
    ensures CardStatus(SnapshotSpec(prices).value).0 == Oversold
  {
    RsiAllLosses(prices, 14);
    SnapshotMeaning(prices);
  }
}
