# Black-Stocks decision logic, modelled in Dafny

Black-Stocks is a one-page stock dashboard (`app.py`). Around its UI and
remote-data calls sit four small pieces of decision logic, and this project
models and proves them:

- **Range resolver** (`range_resolver.dfy`, module `RangeResolver`). A range
  tag (`1j`, `1s`, `1m`, `6m`, `1y`, `5y`, `25y`, `Custom`) and today's date
  become the `(start, end, interval)` request for the price history. Dates
  are day numbers.
- **Empty-result fallback** (`chart_loader.dfy`, module `ChartLoader`). If the
  download comes back empty and the tag is `1j`, the script downloads once
  more from the day before. Any other empty result is an error. The method
  returns the list of requests it made, so its contract counts the calls.
- **Derived fundamentals** (`fundamentals.dfy`, module `Fundamentals`). The
  revenue fallback (`totalRevenue`, then `revenue`), the market-cap/revenue
  ratio, the price change and the trend colour. `dashboard.dfy` (module
  `Dashboard`) chains resolver, loader and panel as the script does.
- **Market-cap variation ranker** (`ranker.dfy`, module `Ranker`). This is the
  per-ticker computation, the loop that keeps the computable records, and
  the sort by decreasing `|Variation|`. The sort is proved to give a
  permutation of the kept records, ordered by the key column, with every
  record unchanged. It is also proved that the key column does not depend on
  how equal keys are ordered.

Remote data is input. The price history is a function `Query -> Series`. A
ticker's `info` snapshot is the datatype `Info`, with `None` for a missing
key. The ranker reads a `Market` value: a map of snapshots, where a missing
ticker means the lookup raised, and a map from `(ticker, start, end)` to the
former close, where a missing entry means the download raised or had no
value. Prices are exact `real`s and share counts are `int`s. Today's date is
a parameter.

The model follows the code in these places:
- A custom range is passed to the download as picked, even when its end is
  before its start. Nothing is rejected.
- A price history with a single close has a change of 0, not an undefined
  one (`Fundamentals.PriceChangeExamples`).
- The ranker has its own start dates. `1j` looks back one day, not zero, and
  the window ends today rather than tomorrow
  (`Ranker.RankerWindowAgainstChart`).
- Ties in the final sort are not known to keep input order. The library's
  default sort is not stable, so the model leaves tie order open.

Python performs a zero division here through pandas/numpy, so no exception
is raised, and the result is modelled as follows:
- A zero first close leaves the chart's change undefined (`None`).
- A zero former price still gives a ranked record. Only its percentage is
  undefined (`None`).

## Model

| member | source | states |
|---|---|---|
| `RangeResolver.Parse` | app.py:14-15 | a label names a tag exactly when the selectbox offers it, and the tag's label is that label |
| `RangeResolver.ParseName` | app.py:14 | every tag's label parses back to that tag |
| `RangeResolver.DefaultPick` | app.py:16-17 | the custom picker starts from the year ending today |
| `RangeResolver.DefaultPickIsYearBack` | app.py:16-39 | the untouched custom picker asks for the `1y` start, one day less than the `1y` end, at the daily interval |
| `RangeResolver.Resolve` | app.py:19-39 | a non-custom range ends tomorrow, starts its lookback before today and so contains today; a custom range is the picked pair, unchecked; the interval is intraday exactly for `1j` (`1m`) and `1s` (`30m`), and `1d` otherwise |
| `RangeResolver.ResolveMatchesTable` | app.py:23-39 | for every row of the table of lookbacks 0, 7, 30, 182, 365, 1825 and 9125 days, the resolver produces exactly that row; the table covers every non-custom tag |
| `RangeResolver.LaterRangeStartsEarlier` | app.py:23-39 | a range listed later starts strictly earlier and ends on the same day |
| `ChartLoader.DayBefore` | app.py:59 | the fallback request starts a day earlier with the same end and interval |
| `ChartLoader.EmptySourceExample` | app.py:54-64 | against a source that always answers empty, a `1s` range makes one call and a `1j` range exactly two |
| `ChartLoader.LoadWithRetry` | app.py:54-64 | a non-empty first download means one call and no error; an empty one for `1j` means exactly one more call from the day before, with the error set exactly when that one is empty too; an empty one for any other tag is an error after one call; the error holds exactly when the data kept is empty |
| `Fundamentals.Revenue` | app.py:82-84 | revenue is `totalRevenue` whenever that is present (zero included), otherwise `revenue` |
| `Fundamentals.CapToRevenue` | app.py:86-87 | the ratio is present exactly when market cap and revenue are both present and non-zero, and then ratio times revenue is the market cap |
| `Fundamentals.PriceChange` | app.py:89-92 | the change is defined exactly when the first close is non-zero, and then first close times (1 + change) is the last close |
| `Fundamentals.ColorName` | app.py:95 | the colour is named "green" or "red", and the two names differ |
| `Fundamentals.TrendColor` | app.py:94-95 | green exactly when the last close is at least the first |
| `Fundamentals.ColorIsSignOfChange` | app.py:89-95 | for a positive first close the colour is green exactly when the change is non-negative |
| `Fundamentals.Derive` | app.py:77-95 | the panel holds the snapshot's market cap and P/E, the ratio of market cap to the fallback revenue, the change (defined exactly for a non-zero first close) and the colour, named "green" exactly when the last close is at least the first |
| `Fundamentals.ZeroTotalRevenueSuppressesRatio` | app.py:82-87 | a zero `totalRevenue` is not replaced by `revenue`, so there is no ratio |
| `Fundamentals.PriceChangeExamples` | app.py:90-92 | closes 100 then 80 give exactly -0.2; a single non-zero close gives 0 |
| `Dashboard.ShowTicker` | app.py:19-95 | the first request is the resolved range; a second one happens exactly for an empty `1j` result; the panel is derived exactly when the data kept is non-empty |
| `Ranker.RankerStart` | app.py:203-212 | the ranker starts one day back for `1j`, at the chart's lookback for `1s`, `1m`, `6m`, `1y`, and has no start for other tags |
| `Ranker.RankerWindow` | app.py:203-213 | the ranker downloads from its start date up to today, exclusive, and has a window exactly when it has a start |
| `Ranker.RankerWindowAgainstChart` | app.py:203-213 | the ranker's window starts where the chart's does except one day earlier for `1j`, and ends a day before the chart's |
| `Ranker.RankerOptionsHaveStart` | app.py:187-188 | every period the ranker's selectbox offers has a start date |
| `Ranker.MarketCapVariation` | app.py:196-221 | a result exists exactly when the snapshot, its price and share count, the start date and the former close are all available; it is the market cap now minus the market cap at the former price, with a percentage defined exactly for a non-zero former price and then relating former and current price |
| `Ranker.RecordFor` | app.py:229-231 | a ticker gets a record exactly when its computation succeeds, under its own name, holding that computation's variation and percentage |
| `Ranker.Universe` | app.py:224 | the universe holds exactly the tickers of either market |
| `Ranker.KeptSound` | app.py:228-231 | every kept record is the record of a visited ticker whose computation succeeded; there are no more records than tickers |
| `Ranker.KeptComplete` | app.py:228-231 | every visited ticker whose computation succeeds has a record |
| `Ranker.KeptDistinct` | app.py:224-231 | when each ticker is visited once, no ticker has two records |
| `Ranker.CollectVariations` | app.py:225-231 | the loop's list is the kept records of the visited tickers, in visiting order |
| `Ranker.ToRow` | app.py:236 | the `AbsVariation` column is the non-negative magnitude of the signed variation, which is kept as is |
| `Ranker.Insert` | app.py:237 | inserting into a descending table adds exactly that row and keeps it descending |
| `Ranker.SortByAbsVariation` | app.py:237 | the sorted table is a permutation of its input and descending in `AbsVariation` |
| `Ranker.KeyColumnDetermined` | app.py:237 | two descending permutations of the same rows have the same key column, so the tie order cannot change it |
| `Ranker.ReorderedRowsSound` | app.py:234-237 | every row of a reordering of the kept records is the unchanged record of a visited ticker, with its key column |
| `Ranker.ReorderedRowsComplete` | app.py:234-237 | a reordering of the kept records has a row for every ticker whose computation succeeds |
| `Ranker.ReorderedRowsDistinct` | app.py:224-237 | a reordering of the kept records has at most one row per ticker |
| `Ranker.RankVariations` | app.py:224-247 | nothing to show exactly when no record was kept; otherwise the table is a permutation of the kept rows, descending in `AbsVariation`, holding exactly one unchanged row for each ticker of either market whose computation succeeds and no other |
| `Ranker.SkipExample` | app.py:196-231 | with one ticker lacking shares and one whose lookup fails, only the first is kept |
| `Ranker.SortExample` | app.py:234-237 | variations +100, -500, +50 are ranked -500, +100, +50 |

## Left out

- Streamlit widgets, layout and messages are UI, with no logic beyond what
  is modelled: the selectboxes, buttons, progress bar, `st.markdown`,
  `st.dataframe`, `st.error` and `color_row` styling (app.py:11-15, 42-47,
  66-67, 101-113, 181-184, 226-232, 239-247).
- The "N/A" display of market cap, P/E and ratio (app.py:182-184) is not
  modelled. On the error path the script reads names it never bound there;
  that defect of the script is not specified.
- yfinance calls (`yf.download`, `yf.Ticker(...).info`) are network calls.
  They become inputs: the `download` function and the `Info` and `Market`
  values.
- `@st.cache_data` caching is not modelled. The inputs stand for whatever
  the cache or the network returns. The ranker's cache key is only
  `(ticker, period)` (app.py:195-196), but the computation reads `today`
  (app.py:203-213), so a cached result may belong to the window of an
  earlier day.
- The ticker lists come from `stocks.py`, which is not part of this model.
  They are parameters, and the order of `list(set(...))` is any enumeration
  of their union without duplicates.
- The 50-period moving average (app.py:70) is a pandas rolling mean on
  floats.
- The Plotly figure, the log-scale toggle and the click-to-click percentage
  (app.py:97-177) are session UI state and display.
- Floating point is not modelled: prices are exact reals. `float(...)`
  conversions, NaN and infinity, and the `:.2%` formatting of the ranker's
  percentage are left out. The percentage is kept as a number.
- The former price is modelled as one value per download window. In the
  source, `df['Close'][ticker]` is a pandas Series, and a history with
  several rows makes `float(...)` raise. The model does not reproduce that
  indexing. A `1s`, `1m`, `6m` or `1y` window holds several rows, so as
  written the script raises at app.py:219 and skips every ticker for those
  periods. The model can express this only as `close` entries that are
  missing.
- The date picker returning fewer than two dates is not modelled. The source
  unpacks its result and would then raise.
- Ranker.MarketCapVariation: the script fails in a particular order when
  several fields are missing. Every failure gives the same `(None, None)`, so
  the model states only that it fails.
- Ranker.SortByAbsVariation: this reference sort fixes one tie order by
  inserting rows into the table. The library's unstable sort may order equal
  keys differently. Nothing else in the model relies on that tie order, and
  `Ranker.KeyColumnDetermined` shows that every descending permutation has
  the same key column.
