/**
 * The fetch pipeline for one ticker: normalise the symbol, ask the
 * market-data provider for the quote and a year of daily bars, classify the
 * answer, and add the indicator columns to the history in place.
 *
 * The provider (network I/O) is a parameter: a total function from the
 * normalised symbol to what the two provider calls would return or raise.
 */
module StockData {
  import opened Wrappers
  import opened Symbols
  import opened Indicators

  /** A field of the provider's quote dictionary, by Python type. */
  datatype InfoValue =
    | NoneValue
    | BoolValue(b: bool)
    | IntValue(i: int)
    | FloatValue(x: real)
    | FloatNaN
    | TextValue(s: string)

  type Info = map<string, InfoValue>

  /** The quote field whose presence marks a symbol as valid. */
  const PriceKey := "regularMarketPrice"

  datatype Bar = Bar(open: real, high: real, low: real, close: real, volume: int)

  function Closes(bars: seq<Bar>): (c: seq<real>)
    ensures |c| == |bars|
    ensures forall i :: 0 <= i < |bars| ==> c[i] == bars[i].close
  {
    seq(|bars|, i requires 0 <= i < |bars| => bars[i].close)
  }

  /** What a provider call produced: a value, or an exception with its text. */
  datatype Attempt<T> = Returned(value: T) | Raised(error: string)

  /** The provider's answers for one ticker: the `info` quote and the one-year `history`. */
  datatype Reply = Reply(info: Attempt<Info>, history: Attempt<seq<Bar>>)

  datatype FetchStatus = Success | InvalidSymbol | NoHistoricalData | FetchError(detail: string) {
    /** The message string the source returns as its third result; callers test it against "success". */
    function Message(): (r: string)
      ensures r == "success" <==> Success?
    {
      match this
      case Success => "success"
      case InvalidSymbol => "Invalid stock symbol"
      case NoHistoricalData => "No historical data available"
      case FetchError(detail) =>
        var r := "Error fetching data: " + detail;
        assert r[0] == 'E';
        r
    }
  }

  /** The indicator columns added to a history with these closing prices. */
  function IndicatorColumns(close: seq<real>): map<string, seq<Option<real>>> {
    map[
      "MA20" := RollingMean(close, 20),
      "MA50" := RollingMean(close, 50),
      "MA200" := RollingMean(close, 200),
      "RSI" := Rsi(close, DefaultRsiPeriods)
    ]
  }

  /** A price-history table: the provider's daily bars plus the derived columns added so far. */
  class Frame {
    var bars: seq<Bar>
    var columns: map<string, seq<Option<real>>>

    /** Every derived column has one entry per bar. */
    ghost predicate Valid()
      reads this
    {
      forall name :: name in columns ==> |columns[name]| == |bars|
    }

    constructor (bars: seq<Bar>)
      ensures Valid()
      ensures this.bars == bars && columns == map[]
    {
      this.bars := bars;
      columns := map[];
    }

    /** `frame[name] = values`: adds or replaces one column; the bars and the other columns stay. */
    method SetColumn(name: string, values: seq<Option<real>>)
      requires Valid() && |values| == |bars|
      modifies this
      ensures Valid()
      ensures bars == old(bars) && columns == old(columns)[name := values]
    {
      columns := columns[name := values];
    }
  }

  /**
   * `get_stock_data`. Outcomes in order of precedence: an exception from the
   * provider, no current price in the quote (the history is then never
   * requested), an empty history, success. Only success returns data.
   */
  method GetStockData(symbol: string, provider: string -> Reply)
    returns (hist: Frame?, info: Option<Info>, status: FetchStatus)
    ensures var reply := provider(NormalizeSymbol(symbol));
      && (reply.info.Raised? ==> status == FetchError(reply.info.error))
      && (reply.info.Returned? && PriceKey !in reply.info.value ==> status == InvalidSymbol)
      && (reply.info.Returned? && PriceKey in reply.info.value && reply.history.Raised? ==>
            status == FetchError(reply.history.error))
      && (reply.info.Returned? && PriceKey in reply.info.value && reply.history.Returned? ==>
            status == if reply.history.value == [] then NoHistoricalData else Success)
    ensures status.Success? <==> hist != null
    ensures status.Success? <==> info.Some?
    ensures hist != null ==>
      var reply := provider(NormalizeSymbol(symbol));
      && fresh(hist) && hist.Valid()
      && info == Some(reply.info.value)
      && hist.bars == reply.history.value
      && hist.columns == IndicatorColumns(Closes(hist.bars))
  {
    var sym := symbol;
    if !(EndsWith(sym, NseSuffix) || EndsWith(sym, BseSuffix)) {
      sym := sym + NseSuffix;
    }
    var reply := provider(sym);

    if reply.info.Raised? {
      return null, None, FetchError(reply.info.error);
    }
    var quote := reply.info.value;
    if PriceKey !in quote {
      return null, None, InvalidSymbol;
    }

    if reply.history.Raised? {
      return null, None, FetchError(reply.history.error);
    }
    var bars := reply.history.value;
    if bars == [] {
      return null, None, NoHistoricalData;
    }

    var frame := new Frame(bars);
    var close := Closes(bars);
    var ma20 := RollingMeanColumn(close, 20);
    frame.SetColumn("MA20", ma20[..]);
    var ma50 := RollingMeanColumn(close, 50);
    frame.SetColumn("MA50", ma50[..]);
    var ma200 := RollingMeanColumn(close, 200);
    frame.SetColumn("MA200", ma200[..]);
    frame.SetColumn("RSI", Rsi(close, DefaultRsiPeriods));
    return frame, Some(quote), Success;
  }
}
