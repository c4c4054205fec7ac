/**
 * The quote summary table: nine fixed metrics taken from the provider's
 * quote, each shown as a rupee amount or as "N/A".
 *
 * The number formatting (thousands separators, two decimals) is a parameter
 * `fmt`; the table only decides which cells are formatted and with what prefix.
 */
module Summary {
  import opened Wrappers
  import opened StockData

  const NotAvailable := "N/A"
  const RupeeSign := "₹"

  /** A Python float as far as `pd.isna` can tell: a finite value or NaN. */
  datatype Number = Finite(x: real) | NaN

  /** `format_currency`: "N/A" for NaN, otherwise the rupee sign and the formatted amount. */
  function FormatCurrency(v: Number, fmt: real -> string): (r: string)
    ensures r == NotAvailable <==> v.NaN?
    ensures v.Finite? ==> |r| >= 1 && r[0] == '₹' && r[1..] == fmt(v.x)
  {
    match v
    case NaN => NotAvailable
    case Finite(x) =>
      var r := RupeeSign + fmt(x);
      assert r[0] == '₹';
      r
  }

  /**
   * `isinstance(x, (int, float))`, with the value as a number. A bool is an
   * int in Python, so True and False are the numbers 1 and 0.
   */
  function AsNumber(v: InfoValue): Option<Number> {
    match v
    case BoolValue(b) => Some(Finite(if b then 1.0 else 0.0))
    case IntValue(i) => Some(Finite(i as real))
    case FloatValue(x) => Some(Finite(x))
    case FloatNaN => Some(NaN)
    case NoneValue => None
    case TextValue(_) => None
  }

  /** The value is a number and not NaN. */
  predicate IsShownNumber(v: InfoValue) {
    v.BoolValue? || v.IntValue? || v.FloatValue?
  }

  /** The cell text for one quote field: formatted if numeric, "N/A" otherwise. */
  function CellText(v: InfoValue, fmt: real -> string): (r: string)
    ensures r == NotAvailable <==> !IsShownNumber(v)
    ensures IsShownNumber(v) ==> r == FormatCurrency(AsNumber(v).value, fmt)
  {
    match AsNumber(v)
    case Some(n) => FormatCurrency(n, fmt)
    case None => NotAvailable
  }

  /** `info.get(key, None)`. */
  function Get(info: Info, key: string): InfoValue {
    if key in info then info[key] else NoneValue
  }

  /** The nine rows of the table, in order: label and quote key. */
  const Metrics: seq<(string, string)> := [
    ("Current Price", "regularMarketPrice"),
    ("Previous Close", "regularMarketPreviousClose"),
    ("Open", "regularMarketOpen"),
    ("Day High", "dayHigh"),
    ("Day Low", "dayLow"),
    ("52 Week High", "fiftyTwoWeekHigh"),
    ("52 Week Low", "fiftyTwoWeekLow"),
    ("Market Cap", "marketCap"),
    ("Volume", "volume")
  ]

  datatype Row = Row(metric: string, value: string)

  /** A cell of the value column: the raw quote field, or its display text once overwritten. */
  datatype Cell = Raw(field: InfoValue) | Shown(text: string)

  /**
   * `prepare_summary_data`: the raw values are looked up first, then the
   * value column is overwritten cell by cell with its display text.
   */
  method PrepareSummaryData(info: Info, fmt: real -> string) returns (rows: seq<Row>)
    ensures |rows| == 9
    ensures forall i :: 0 <= i < |rows| ==> rows[i].metric == Metrics[i].0
    ensures forall i :: 0 <= i < |rows| ==> rows[i].value == CellText(Get(info, Metrics[i].1), fmt)
    ensures forall i :: 0 <= i < |rows| ==>
      (rows[i].value == NotAvailable <==> Metrics[i].1 !in info || !IsShownNumber(info[Metrics[i].1]))
  {
    var column := new Cell[|Metrics|](i requires 0 <= i < |Metrics| => Raw(Get(info, Metrics[i].1)));
    for i := 0 to |Metrics|
      invariant forall k :: 0 <= k < i ==> column[k] == Shown(CellText(Get(info, Metrics[k].1), fmt))
      invariant forall k :: i <= k < |Metrics| ==> column[k] == Raw(Get(info, Metrics[k].1))
    {
      column[i] := Shown(CellText(column[i].field, fmt));
    }
    var cells := column[..];
    assert forall k :: 0 <= k < |cells| ==> cells[k].Shown?;
    rows := seq(|cells|, i requires 0 <= i < |cells| => Row(Metrics[i].0, cells[i].text));
  }
}
