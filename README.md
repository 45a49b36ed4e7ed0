# Data collector: a verified model

This project models the core of `DataCollector` (OpenDeltaDeliverables). The collector gathers three market series for one instrument, each paged from an upstream service:

- exchange candles (OHLCV), fetched through a ccxt connector;
- open interest (OI) history, fetched from the Coinglass API;
- funding-rate (FR) history, fetched from the Coinglass API.

It then inner-joins the three series on their timestamp and drops every row that has a missing value.

The model covers the following, one module per concern:

- `Interval`: the interval codec `convert_interval`.
- `Validation`: the instrument check `validate` against the snapshot of supported pairs.
- `Exchanges`: the connector dispatch of `get_ohlcv`.
- `Candles`: the candle fetcher `fetch_OHLCV`, that is its cursor loop with retries, the end trim and the day floor.
- `Levels`: the OI and FR fetchers `get_oi_ohlc` and `get_fr_ohlc`, that is their fixed-stride loop and column renaming.
- `Aligner`: the pandas inner joins and `dropna` of `get_all`.
- `Collector`: `get_ohlcv` and `get_all` as a whole.

`Schema` holds the row types, `Errors` holds one constructor per way the program can fail, and `Wrappers` holds `Option` and `Result`.

Modelling choices:

- **Timestamps.** Every timestamp is an integer count of milliseconds. Candles arrive in milliseconds. OI and FR points arrive in seconds and are multiplied by 1000 when renamed.
- **Dates.** Start and end dates are taken as epoch seconds. The candle loop multiplies them by 1000, as the program does.
- **Values.** Market values are an opaque type parameter `V`, and a missing value is `None`.
- **Upstream services.** Each service is replaced by the sequence of its answers, in call order.
  - A candle answer is a page of records or a retryable error. A candle request records the symbol, the timeframe and `since`.
  - An OI/FR answer is a list of points or a failed request.
  - When the answers run out while a loop still wants a page, the model stops with `ResponsesExhausted`. This is the only place where the model bounds the program's unbounded retrying.
- **Loops.** The loops are methods (`Candles.FetchOhlcv`, `Levels.GetLevelSeries`). Each is proved equal to a recursive specification function, and the properties are lemmas about that function.
- **Failures.** Every failure the model covers becomes an `Err`: the Python `assert`s, the `ValueError`s of the interval codec and the dispatch, the `IndexError` on an empty interval and the `KeyError` on an empty OI/FR page. The failures it leaves out are listed under "Left out".

Where the code and its description disagree, the model follows the code:

- `convert_interval` accepts `"0m"` and `"-5m"` and gives 0 and -300 seconds. It does not insist on a positive duration. `Interval.PositiveCountPositiveDuration` states when the duration is positive.
- The day floor applies whenever the interval ends in `d`, `w` or `m`. This includes minute intervals such as `"15m"`.
- An OI/FR page with an empty `data` list has no `t` column in the program, which raises `KeyError`. The model returns `Err(MissingTimestamp)` for it; it is not treated as an empty page.

## Model

| member | source | states |
|---|---|---|
| Interval.ConvertInterval | data_collector.py:51-62 | The empty token is an error. A token converts iff its unit is `d`/`w`, or its unit is `m`/`h` and its prefix is an integer. `m`/`h` give the prefix times 60/3600. `d` gives 86400 and `w` gives 604800 whatever the prefix. Any other unit is `InvalidInterval`. |
| Interval.ParseDecimal | data_collector.py:54 | The integer parse used for the prefix reads back every decimal numeral, with or without a minus sign. |
| Interval.ConvertFormatted | data_collector.py:53-56 | Round trip: the token `n` followed by `m`/`h` converts to `n` times that unit's seconds, for every integer `n`. |
| Interval.DayWeekIgnorePrefix | data_collector.py:57-60 | Whatever precedes a final `d` or `w`, the result is one day or one week. |
| Interval.PositiveCountPositiveDuration | data_collector.py:51-62 | A converted token with a positive count, or with unit `d`/`w`, gives a positive duration. |
| Interval.Examples | data_collector.py:51-62 | `15m`=900, `2h`=7200, `1d`=`3d`=86400, `1w`=604800; `5x`, a bare `m` and the empty token are the three errors. |
| Validation.Listed | data_collector.py:30-34 | The scan finds the symbol iff some instrument's id equals it exactly. |
| Validation.Validate | data_collector.py:26-34 | An exchange missing from the snapshot gives false, not an error. Otherwise the result is true iff some instrument of that exchange has exactly that id. |
| Validation.NoSubstringMatch | data_collector.py:31 | If no id equals the symbol, validation fails, even when ids contain it. |
| Validation.Examples | data_collector.py:26-34 | `BTCUSDT` is found. `ETHUSDT` and the substring `BTC` are not. An unknown exchange is rejected. |
| Exchanges.SelectConnector | data_collector.py:105-130 | Dispatch succeeds iff the name is one of the eight supported exchanges, and fails with `UnsupportedExchange` otherwise. |
| Exchanges.FuturesFlagMatters | data_collector.py:109-124 | The futures flag changes the chosen connector iff the exchange is Kraken or Binance. |
| Exchanges.SelectionRoundTrip | data_collector.py:105-128 | Every connector is selected by its own name and flag. A selection of connector `c` came from `c`'s name, and from `c`'s flag where the flag matters. |
| Candles.CandlePaging | data_collector.py:78-93 | The loop sends at most one request per answer. It fails only when the answers run out. |
| Candles.Trim | data_collector.py:96 | Kept rows come from the input and lie strictly before the end. Every input row before the end is kept. |
| Candles.TrimConcat | data_collector.py:88-96 | Trimming the concatenated pages is trimming each page in turn, so arrival order is kept. |
| Candles.TrimAllBefore | data_collector.py:96 | Rows wholly before the end pass the trim unchanged. |
| Candles.FloorDay | data_collector.py:99 | Flooring `t` gives a multiple of one day, at most `t` and less than one day below it. |
| Candles.FloorToDay | data_collector.py:98-99 | The floor has the same length and values. Each timestamp is a day multiple within the day of the original. |
| Candles.FetchOhlcv | data_collector.py:65-102 | The while loop (capability check, interval conversion, paging, trim, floor) equals the specification function `FetchOhlcvSpec`. |
| Candles.AppendPage | data_collector.py:88-89 | One more answer adds its records to the collected rows, its move to the cursor, and one to the success count if it is a page. |
| Candles.PagingTrace | data_collector.py:74-93 | The rows are the records of the consumed answers in order. Request `j` is sent at the start plus the moves of the first `j` answers, never past the end. The final cursor is past the end. |
| Candles.ConsecutiveRequests | data_collector.py:89-93 | After a retryable error the same request is sent again. After a page of `k` records the cursor moves `k` intervals (one if `k` is 0), so it strictly increases when the interval is positive. |
| Candles.SuccessfulPagesBound | data_collector.py:78-89 | Progress: with a positive interval, k successful pages need at least (k-1) intervals of room between start and end. |
| Candles.RetriesOnlyRepeatRequests | data_collector.py:91-93 | Any number of retryable errors only repeats the pending request and leaves rows and cursor untouched. |
| Candles.RetriesDoNotChangeCandles | data_collector.py:80-99 | Leading retryable errors give the same candles as without them, with the first request sent that many more times. |
| Candles.FetchedCandles | data_collector.py:74-100 | A fetch returns the consumed pages' records, trimmed and floored. Every timestamp is before the end. Floored intervals give day multiples. Other intervals give exactly the records before the end. Every request asks for the given symbol with the interval as timeframe; `since` starts at the start and stays within the window. |
| Candles.EmptyWindow | data_collector.py:78 | With the start after the end, nothing is requested or returned. |
| Candles.FloorExamples | data_collector.py:98 | `1d`, `1w` and `15m` are floored to the day; `4h` is not. |
| Levels.LevelPaging | data_collector.py:146-171 | The stride loop sends at most one request per answer. |
| Levels.GetLevelSeries | data_collector.py:133-218 | The OI/FR while loop (validation, stride, paging, renaming) equals the specification function `GetLevelSeriesSpec`. |
| Levels.LevelTrace | data_collector.py:144-171 | The rows are the renamed pages in order. Request `j` has `startTime` = start + j·stride, the fixed `endTime`, the limit 4500 and the kind's endpoint, all within the window. The final cursor is past the end. |
| Levels.RequestCount | data_collector.py:144-171 | With a positive stride there are (end-start) div stride + 1 requests when start ≤ end, and none otherwise. |
| Levels.BadPageAborts | data_collector.py:159-162 | The first failed or empty page inside the window ends the fetch, with `RequestFailed` or `MissingTimestamp`. |
| Levels.LevelSeriesShape | data_collector.py:133-218 | A successful fetch validated the instrument first. Its rows are the renamed pages. Its requests step by 4500 intervals. Their number follows from the window. |
| Aligner.MergeOiMembers | data_collector.py:226 | A row is in the candle/OI join iff it pairs a candle and an OI row with the same timestamp. |
| Aligner.MergeFrMembers | data_collector.py:227 | A row is in the second join iff it pairs a joined row and an FR row with the same timestamp. |
| Aligner.DropNaMembers | data_collector.py:228 | `dropna` keeps exactly the rows with no missing value. |
| Aligner.AlignMembers | data_collector.py:226-228 | A row is aligned iff it is complete and joins some candle, OI row and FR row of equal timestamp. |
| Aligner.AlignedTimestamps | data_collector.py:226-229 | A timestamp appears in the output iff all three series have it on a combination whose joined row is complete. |
| Aligner.AlignedRowsFromCandles | data_collector.py:226-228 | Every aligned row is complete and has the timestamp of some candle. |
| Aligner.AlignFollowsCandleOrder | data_collector.py:226-228 | The output follows the candle order: aligning `a + b` is aligning `a`, then aligning `b`. |
| Aligner.MatchOiConcat | data_collector.py:226 | Splitting the OI series splits one candle's matches in the same way, so the matches follow OI order. |
| Aligner.MatchFrConcat | data_collector.py:227 | Splitting the FR series splits one joined row's matches in the same way, so the matches follow FR order. |
| Aligner.MatchOiCount | data_collector.py:226 | A candle matches once per OI row at its timestamp, and every match carries that timestamp. |
| Aligner.MatchFrCount | data_collector.py:227 | A joined row matches once per FR row at its timestamp. |
| Aligner.JoinCount | data_collector.py:226-227 | Before `dropna` the joins give exactly one row per combination of a candle, an OI row and an FR row at one timestamp, summed over the candles. |
| Aligner.ThreeSeriesExample | data_collector.py:226-228 | Only the timestamp present in all three series survives. |
| Aligner.DuplicateExample | data_collector.py:226-228 | Two candles at one timestamp give two rows. A row with a missing value is dropped. |
| Aligner.DuplicateOiExample | data_collector.py:226-228 | Two OI rows at one timestamp give two rows, in OI order. |
| Collector.GetOhlcv | data_collector.py:105-130 | The dispatch followed by the candle fetch for the given symbol equals `GetOhlcvSpec`. |
| Collector.GetAll | data_collector.py:221-230 | OI, then FR, then candles, then alignment: the method equals `GetAllSpec`, whose result holds the aligned rows and the requests sent to each service. The first failure wins. |
| Collector.RequestsNameTheirSymbols | data_collector.py:221-224 | The candle connector is asked for `symbol_ccxt` at the interval. Both history endpoints are asked for `symbol_coinglass` on the exchange at the interval. |
| Collector.AlignedSeriesShape | data_collector.py:221-230 | A successful `get_all` had a supported exchange and a validated instrument. Every one of its rows is complete and lies before the end. |
| Collector.UnsupportedInstrumentFirst | data_collector.py:221-224 | An instrument that fails validation makes `get_all` fail with `UnsupportedInstrument`, whatever else is given. |

## Left out

- HTTP and exchange calls: `requests.get`, the ccxt constructors, `fetch_ohlcv`, `fetchMarkets` and the snapshot fetch in the constructor are network I/O. The snapshot is a parameter, and each service is the sequence of its answers.
- Printing and sleeping in the retry path, and the ticker-printing helpers `get_symbol_tickers_coin_glass` and `get_symbol_tickers_ccxt`, are side effects only.
- Parsing `DD.MM.YYYY` dates in UTC is a library call. Start and end are integer epoch seconds.
- `astype(float)` and the numeric values themselves are left out. Values are opaque and carried unchanged.
- Pandas storage is left out: `DataFrame`, `concat`, `reset_index` and `set_index` are represented by sequences of rows. The timestamp that `set_index` makes the index is a field of each row.
- Interval.ParseInt: Python's `int()` also accepts surrounding whitespace and digit-separating underscores. The model accepts only an optional sign followed by ASCII digits.
- Candles.FetchOhlcv: the retry loop of the program never gives up. The model stops with `ResponsesExhausted` when the scripted answers run out.
- Candles.FetchOhlcv: any exception other than the four ccxt error kinds would propagate from `fetch_ohlcv`. Only retryable errors are modelled.
- Levels.GetLevelSeries: an HTTP reply without a `data` field raises an error in the program. The model treats it as one failed request, `RequestFailed`.
- Collector.GetAll: the program returns only the aligned frame. The request logs in `Gathered` are the model's record of the calls `get_all` makes, not a value the program returns.
- Candles.FetchOhlcv: `additional_params` is always empty when called from `get_ohlcv`, and the `hold` delay only affects timing. Neither is part of a candle request.
