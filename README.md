# StockInsight helpers, modelled in Dafny

StockInsight is a Streamlit dashboard for Indian equities. Its reusable logic sits in `utils.py`, and this project models that logic:

- the NSE market-hours check (open, closed for the weekend, closed after the close, closed before the open, and how many days until the next 09:15 session);
- ticker normalisation (the default `.NS` suffix);
- the fetch pipeline `get_stock_data`. It classifies the provider's answer (an exception, no `regularMarketPrice`, an empty history, success) and adds the MA20, MA50, MA200 and RSI columns to the history in place;
- the trailing simple moving average and the simple-average RSI, on exact reals, with `None` for pandas' NaN;
- the nine-row quote summary table and its "N/A" / rupee formatting.

Modules:
- `Wrappers` holds `Option`.
- `MarketClock` is a pure function of a local moment (weekday, second of day, microsecond).
- `Symbols` holds the suffix rule.
- `Indicators` has the specification functions `RollingMean` and `Rsi`. It also has a one-pass running-sum method that fills a moving-average column, proved equal to `RollingMean`.
- `StockData` has a `Frame` class, whose columns the pipeline sets in place, and the `GetStockData` method.
- `Summary` builds the table.

Behaviour worth noting:
- The symbol is not upper-cased (`main.py` only strips it).
- An RSI window whose average gain and average loss are both 0 gives NaN (`None`).
- RSI is first defined at index `periods - 1`, because `delta.where(delta > 0, 0)` turns the missing first change into a 0 that enters the first window.

## Model

| member | source | states |
|---|---|---|
| MarketClock.CheckMarket | utils.py:8-40 | Open iff Monday–Friday and 09:15:00 <= time <= 15:30:00 (both ends inclusive). Weekend iff weekday 5 or 6; after-hours iff a weekday after 15:30:00; before-open iff a weekday before 09:15:00. So the four outcomes are exclusive and cover every moment. Saturday/Sunday reopen on Monday (2 or 1 days ahead); Friday after the close reopens 3 days ahead and Monday–Thursday the next day. The next opening reported is always a weekday session later than now, and no weekday session lies between now and it. |
| MarketClock.MicrosecondsIrrelevant | utils.py:14-37 | `replace(hour, minute, second=0)` keeps the microseconds, so two moments that differ only in microseconds get the same answer. |
| Symbols.NormalizeSymbol | utils.py:56-57 | The result always ends in `.NS` or `.BO`. A symbol already ending in either is unchanged. Any other symbol gets exactly `.NS` appended. |
| Symbols.NormalizeIdempotent | utils.py:56-57 | Normalising twice is the same as normalising once. |
| Indicators.RollingMean | utils.py:73-75 | `rolling(window=n).mean()` has the input's length and is present exactly from index n−1 on. |
| Indicators.RollingMeanColumn | utils.py:73-75 | Filling the column with a running window sum (add the new price, drop the one that left the window) gives exactly the trailing-window means of `RollingMean`. |
| Indicators.RollingMeanWithinWindow | utils.py:73-75 | Every moving-average value lies between the smallest and the largest close of its window. |
| Indicators.RollingMeanNonNegative | utils.py:45-46 | A rolling mean of non-negative gains or losses is never negative. |
| Indicators.Gains | utils.py:44-45 | One gain per price, each >= 0. Index 0 is 0 because the NaN first change fails `delta > 0` and is replaced by 0. |
| Indicators.Losses | utils.py:44-46 | One loss per price, each >= 0. Index 0 is 0. |
| Indicators.GainsLossesSplitDelta | utils.py:44-46 | From index 1 on, gain − loss is the price change, and at most one of the two is non-zero. |
| Indicators.RsiOf | utils.py:48-49 | Average loss 0 and average gain > 0 gives 100 (the infinite ratio). Both 0 gives NaN (`None`). Otherwise the result is 100·gain/(gain+loss). Every defined value is in [0, 100]. |
| Indicators.Rsi | utils.py:42-50 | Same length as the prices. Absent before index periods−1. Within [0, 100] wherever defined. |
| Indicators.RsiOfRisingSeries | utils.py:42-50 | For a strictly increasing series the RSI is 100 at every index >= periods−1 (and >= 1). |
| Indicators.RsiOfFallingSeries | utils.py:42-50 | For a strictly decreasing series the RSI is 0 at every index >= periods−1 (and >= 1). |
| StockData.FetchStatus.Message | utils.py:64-83 | The message is "success" exactly for a successful fetch; every failure message differs from it. |
| StockData.Frame.constructor | utils.py:67 | A history starts with the provider's bars and no derived columns. |
| StockData.Frame.SetColumn | utils.py:73-78 | Assigning a column replaces only that column. The bars and the other columns are unchanged, and every column keeps one entry per bar. |
| StockData.GetStockData | utils.py:52-83 | The provider is asked for the normalised symbol. A raised exception gives "Error fetching data: …". A quote without `regularMarketPrice` gives "Invalid stock symbol" whatever the history is. Otherwise an empty history gives "No historical data available", and otherwise "success". Only success returns data: the provider's bars with MA20, MA50 and MA200 (`RollingMean` with windows 20, 50, 200) and RSI (`Rsi` with 14 periods). |
| Summary.FormatCurrency | utils.py:85-89 | "N/A" exactly for NaN; otherwise "₹" followed by the formatted amount. |
| Summary.CellText | utils.py:106 | A cell is "N/A" exactly when the value is not an int/float/bool or is NaN. Otherwise it is `format_currency` of its numeric value. |
| Summary.PrepareSummaryData | utils.py:91-107 | Exactly nine rows, in the order Current Price, Previous Close, Open, Day High, Day Low, 52 Week High, 52 Week Low, Market Cap, Volume. Each value cell starts as the raw quote field and is overwritten in place by its display text. A value is "N/A" iff the field is absent, not numeric or NaN. |

## Left out

- The clock and time zone (`datetime.now`, `pytz`) are left out: the caller passes the local weekday, second of day and microsecond.
- The status message texts (`strftime` of the next opening) are left out: the status carries the outcome and the day offset of the next 09:15 opening instead.
- `{:,.2f}` number formatting is the parameter `fmt` and is not modelled.
- The provider calls (`yf.Ticker`, `.info`, `.history`) are network I/O. They are a parameter mapping the normalised symbol to what each call returns or raises.
- Float arithmetic is exact `real` arithmetic, so rounding (including the drift of a running sum) is not modelled. Of the IEEE special cases, only NaN (`None`, `FloatNaN`) and the infinite RSI ratio are modelled.
- Infinite quote values are not modelled, nor are NaN closing prices in the history.
- The pandas index is not modelled: columns are positional sequences of the history's length.
- RollingMean: windows below 1 are not modelled (`requires n >= 1`); the source only uses 14, 20, 50 and 200.
- Rsi: periods below 1 are not modelled (`requires periods >= 1`); the source only uses the default 14.
- Converting a very large Python int to a float for formatting (which can overflow) is not modelled.
- The Streamlit pages (`main.py`, `pages/portfolio.py`) are left out: rendering, charts, widgets and CSV downloads.
- Portfolio aggregation, the NSE index fetch and the pros/cons insights are not part of this model: their definitions are not in `utils.py`. `main.py:258` unpacks a fourth result that `get_stock_data` does not return; that fourth value is not invented here.
