# crypto-excel-export: a Dafny model of the exchange services

This project models the data-fetching core of the two exchange services in
crypto-excel-export. The services download candlestick (k-line) history from
Binance and from KuCoin, turn it into a table and export it to a spreadsheet.
The model covers:

- **`retry_on_api_error`** (`retry.dfy`). The decorator calls a function up to
  `max_retries` times. It retries only on `RequestException` and
  `BinanceAPIException`, and it sleeps `delay * 2^k` after a failed attempt
  `k` unless that attempt was the last. The wrapped call is a total function
  from the attempt index to an `Outcome`, so any script of successes and
  failures is one such function. Delays are integer milliseconds. Sleeps go
  into a ghost log instead of being waited out.
- **Binance** (`binance.dfy`):
  - `_validate_symbol`, modelled on Python's `str.upper` and `str.strip`
    (`text.dfy`);
  - `_kline_to_dict` and `pd.DataFrame(records)`;
  - `_process_dataframe`, on a `DataFrame` class whose columns are
    overwritten in place;
  - the retried `get_historical_klines`;
  - `get_historical_data_as_dataframe`, which never raises.
- **KuCoin** (`kucoin.dfy`):
  - `_format_symbol`;
  - the backward paginator of `get_kline_data_as_dataframe`. It is a `while`
    loop over a cursor, proved against a recursive definition of the requests
    it makes;
  - the assembly steps: drop duplicate timestamps, keep the inclusive range,
    sort, reorder the columns.
- **Export rules** (`sheets.dfy`) of both `export_to_excel` methods:
  - the column width `min(max(longest cell, header) + 2, 50)`;
  - KuCoin's fixed width of 20 for the timestamp column;
  - the sheet names.

The model follows the code where it differs from what the docstrings and
comments suggest (kucoin_service.py:29 calls the format `'BTC-USDT'`;
kucoin_service.py:75 speaks of "the oldest data point in the chunk"):

- `drop_duplicates` keeps the **first** row of each timestamp.
- "Oldest" is the timestamp of the page's **last** row, not a minimum.
- `_format_symbol` does not strip whitespace. It returns `""` for `""`.
- `_format_symbol` is not idempotent: `"BTC-USDT"` becomes `"BTC--USDT"`.
- A pair that *is* a listed quote, such as `"USDT"`, is split by the
  three-character fallback into `"U-SDT"`.

External calls are parameters:

- the Binance client is a function from (validated symbol, attempt) to an
  outcome;
- the KuCoin endpoint is a function from (symbol, `startAt`, `endAt`) to an
  outcome;
- `pd.to_datetime` and `pd.to_numeric` are functions on one cell that may
  raise;
- `astype(str)` is a function to strings.

## Model

| member | source | states |
|---|---|---|
| Retry.RetryOnApiError | binance_service.py:38-59 | At most `max_retries` calls, and at least one when `max_retries > 0`. Every call but the last failed transiently. The last call's value is returned or its exception re-raised. A transient failure is the final answer only on attempt `max_retries`. With no attempt, `raise None` gives a TypeError. The sleeps are exactly `delay * 2^k` for each failed attempt `k` except the last. |
| Retry.Backoff | binance_service.py:50-51 | The log after `n` failed attempts has `n` entries, and entry `k` is `delay * 2^k`. |
| Retry.BackoffNonDecreasing | binance_service.py:51 | Backoff durations never decrease. |
| Retry.BackoffDoubles | binance_service.py:51 | Each backoff is twice the one before it. |
| Retry.Pow2Monotone | binance_service.py:51 | `2^i <= 2^j` for `i <= j`. |
| Retry.AlwaysTransientWithDefaults | binance_service.py:38-57 | With the defaults, a call that always fails transiently is made 3 times. The third failure is raised, after sleeps of 1000 and 2000 ms. |
| Text.Upper | binance_service.py:85 | Same length; each character is upper-cased (ASCII letters only). |
| Text.TrimLeft | binance_service.py:85 | Returns a suffix of the input. Everything removed is whitespace, and the result does not start with whitespace. |
| Text.TrimRight | binance_service.py:85 | Returns a prefix of the input. Everything removed is whitespace, and the result does not end with whitespace. |
| Text.Strip | binance_service.py:85 | The result is a contiguous middle part of the input, and everything removed on either side is whitespace. Neither end of the result is whitespace. The result is empty exactly when the input is all whitespace. |
| Text.StripIgnoresPadding | binance_service.py:85 | Whitespace around a string does not change what `strip` returns. |
| Text.NoLowerStrip | binance_service.py:85 | Stripping adds no lower-case letter. |
| Text.UpperIdempotent | binance_service.py:85 | Upper-casing twice is upper-casing once. |
| Text.IsSpace | binance_service.py:85 | The characters Python 3's `str.isspace` accepts. |
| Text.EndsWith | kucoin_service.py:33 | `s.endswith(suffix)`: the suffix is no longer than `s` and equals its last characters. |
| Text.Contains | kucoin_service.py:141 | `sub in s`: `sub` occurs at some position of `s`. |
| Text.CountUpper | kucoin_service.py:30 | Upper-casing keeps the number of occurrences of a non-letter such as `-`. |
| Binance.ValidateSymbol | binance_service.py:80-86 | Raises `ValueError("Symbol cannot be empty")` exactly for `""`. Otherwise the result has no lower-case letter, and it is empty exactly when the input is all whitespace. |
| Binance.ValidateSymbolTrimmed | binance_service.py:85 | A non-empty validated symbol neither starts nor ends with whitespace. |
| Binance.ValidateSymbolIdempotent | binance_service.py:80-86 | A non-empty validated symbol validates to itself. |
| Binance.ValidateSymbolWhitespaceOnly | binance_service.py:82-85 | A whitespace-only symbol passes the emptiness check and yields `""`. |
| Binance.ValidateSymbolInsensitive | binance_service.py:85 | Case and surrounding whitespace do not change the validated symbol. |
| Binance.Zip | binance_service.py:90 | Pairs up to the shorter input; pair `i` is `(keys[i], values[i])`. |
| Binance.KlineToDict | binance_service.py:18-90 | Exactly `min(12, len(kline))` entries. Entry `i` maps `KLINE_COLUMNS[i]` to `kline[i]`, and the keys are distinct. |
| Binance.KlineColumnsDistinct | binance_service.py:18-31 | The twelve column names are distinct. |
| Binance.NumericColumnsDistinct | binance_service.py:33-36 | The numeric column names are distinct. |
| Binance.TimeColumnsNotNumeric | binance_service.py:33-36 | Neither time column is in `NUMERIC_COLUMNS`. |
| Binance.Lookup | binance_service.py:134 | A record has a cell for a key exactly when the key is one of its keys. That cell holds the value of the key's first entry. |
| Binance.AddNew | binance_service.py:134 | Keeps the existing columns as a prefix and adds exactly the new keys, without duplicates. |
| Binance.ColumnsOf | binance_service.py:134 | The frame's columns are distinct and are exactly the keys that occur in some record. |
| Binance.Column | binance_service.py:134 | One cell per record: the record's value for the key (its first entry), or NaN when the record lacks the key. |
| Binance.RecordCells | binance_service.py:134 | One column per key occurring in the records, each with one cell per record. |
| Binance.Without | binance_service.py:104-105 | Removes exactly the named column and keeps distinctness. |
| Binance.WithoutAbsent | binance_service.py:104-107 | Removing a column the frame lacks leaves the columns as they are. |
| Binance.DataFrame.Empty | binance_service.py:131-142 | `pd.DataFrame()` has no columns and no rows. |
| Binance.DataFrame.FromRecords | binance_service.py:134 | The frame's columns, height and cells are those of the records. |
| Binance.DataFrame.SetColumn | binance_service.py:97-102 | Replaces one column's cells in place. Nothing else changes. |
| Binance.DataFrame.Drop | binance_service.py:105 | A new frame without the column, with the same height and other cells. |
| Binance.ConvertedColumn | binance_service.py:97-102 | The time columns go through `to_datetime`, the columns of `NUMERIC_COLUMNS` through `to_numeric`; every other column is kept. |
| Binance.Processable | binance_service.py:94-105 | A non-empty frame is processed without an exception exactly when both time columns exist and every column converts under its rule. |
| Binance.ConvertCells | binance_service.py:97-102 | Succeeds exactly when every present value converts. The result then converts each present cell and keeps NaN. |
| Binance.ConvertColumn | binance_service.py:97-102 | The column is replaced by its conversion when that succeeds; on an exception the frame is unchanged. |
| Binance.ConvertNumericColumn | binance_service.py:100-102 | One loop pass: the numeric column is converted if present. Otherwise the invariant carries on to the next entry. |
| Binance.ConvertNumericColumns | binance_service.py:100-102 | Succeeds exactly when every column converts under its rule. Then each column holds its converted value. |
| Binance.ProcessDataframe | binance_service.py:92-107 | An empty frame is returned as the same, untouched object. Otherwise it raises exactly when a time column is missing or a value does not convert. On success the columns are the input's minus `CanBeIgnored`, with nothing else removed, and every cell is converted. |
| Binance.ToRecords | binance_service.py:123 | The client's exception, or one record per k-line. |
| Binance.GetHistoricalKlines | binance_service.py:109-123 | 1 to 3 attempts, each validating and then fetching. Every attempt but the last failed transiently. The last attempt's outcome is the answer. An empty symbol is raised after one attempt with no sleep. |
| Binance.KlinesAttempt | binance_service.py:113-123 | One attempt of `get_historical_klines`: validate the symbol, call the client, turn k-lines into records. |
| Binance.EmptySymbolAttempt | binance_service.py:82-113 | For `""` every attempt raises the ValueError before the client is reached, and it is not retried. |
| Binance.ValidSymbolAttempt | binance_service.py:113-120 | A non-empty symbol reaches the client normalised. The attempt fails transiently exactly when the client does. |
| Binance.GetHistoricalDataAsDataframe | binance_service.py:125-142 | Never raises. The records come from the retried fetch: 1 to 3 attempts, every one but the last failing transiently, and a transient failure is final only on the third. A failed or empty fetch, or a processing exception, gives an empty frame. Otherwise the result is the processed frame of the fetched records. |
| KuCoin.FirstQuote | kucoin_service.py:31-34 | The first listed quote that splits the pair, or none. No earlier quote splits it. |
| KuCoin.QuoteOf | kucoin_service.py:31-36 | The quote ends the upper-cased pair, is shorter than it, and has at least 3 characters. It is the first splitting listed quote, or else the last three characters. |
| KuCoin.QuoteLengths | kucoin_service.py:31 | Every listed quote has 3 or 4 characters. |
| KuCoin.QuoteEndings | kucoin_service.py:31 | The last letter of each listed quote, by length. |
| KuCoin.QuotesAreSuffixFree | kucoin_service.py:31-34 | No listed quote ends another, so at most one splits a pair. |
| KuCoin.NoSplitByLastChar | kucoin_service.py:32-33 | No listed quote splits a pair whose last character differs from every shorter quote's last character. |
| KuCoin.DashBefore | kucoin_service.py:34-36 | One dash is inserted at position `k`. Removing it gives back the input, and what follows is the input's suffix. |
| KuCoin.FormatSymbol | kucoin_service.py:28-37 | Pairs of at most 3 characters, `""` included, come back upper-cased and undivided. Longer pairs get one dash before the quote, with non-empty parts on both sides. Removing the dash gives the upper-cased pair. |
| KuCoin.FormatSymbolAddsOneDash | kucoin_service.py:30-36 | A pair longer than 3 gains exactly one `-`. |
| KuCoin.FormatSymbolOnQuote | kucoin_service.py:32-34 | The pair is cut before the first listed quote that splits it. |
| KuCoin.FormatSymbolOnFallback | kucoin_service.py:35-36 | Without a splitting quote, a pair longer than 3 is cut before its last three characters. |
| KuCoin.FormatSymbolCuts | kucoin_service.py:32-34 | For `head + quote` with no lower-case letter, where `quote` is the first listed quote that splits the pair (so `head` is non-empty), the result is `head + "-" + quote`. |
| KuCoin.FormatSymbolCutsLastThree | kucoin_service.py:35-36 | For `head + tail` with no lower-case letter, a non-empty `head`, a 3-character `tail` and no listed quote splitting it, the result is `head + "-" + tail`. |
| KuCoin.FormatSymbolNotIdempotent | kucoin_service.py:28-37 | `"BTC-USDT"` becomes `"BTC--USDT"`. |
| KuCoin.FormatSymbolUpperCases | kucoin_service.py:30-34 | `"ethusdt"` becomes `"ETH-USDT"`. |
| KuCoin.FormatSymbolFallback | kucoin_service.py:35-36 | `"XRPEUR"` becomes `"XRP-EUR"`. |
| KuCoin.FormatSymbolWholeQuote | kucoin_service.py:33-36 | `"USDT"` is not split by its own quote and becomes `"U-SDT"`. |
| KuCoin.UpperCaseInsensitive | kucoin_service.py:30 | Pairs with the same upper-case form format the same. |
| KuCoin.Oldest | kucoin_service.py:76 | The timestamp of the page's last row. |
| KuCoin.Continues | kucoin_service.py:69-88 | The loop asks again exactly when the request returned a non-empty page whose last row is after the start. |
| KuCoin.Requests | kucoin_service.py:57-88 | The `endAt` of every request from a cursor on: none once the cursor is at or before the start; otherwise the cursor, then, when the page lets the loop go on, the requests from its last row's timestamp minus one. |
| KuCoin.Received | kucoin_service.py:73-95 | `all_data` after the given requests: their pages concatenated in request order, a failed request adding nothing. |
| KuCoin.Fraction | kucoin_service.py:55-80 | `min((end - oldest) / (end - start), 1.0)`: at most 1, and not negative when the oldest row is no later than the end. |
| KuCoin.ProgressOf | kucoin_service.py:78-81 | The values passed to the progress callback: one per non-empty page, in request order, so at most one per request. |
| KuCoin.PausesOf | kucoin_service.py:84-90 | The pauses made: 300 ms after each request that lets the loop go on, so at most one per request. |
| KuCoin.FetchPage | kucoin_service.py:60-95 | One pass: the page is appended, or nothing on an exception. Progress is reported for a non-empty page. The loop goes on exactly when the last row is after the start, from `oldest - 1`, with a 300 ms pause. |
| KuCoin.FetchPages | kucoin_service.py:47-95 | The loop makes exactly the requests `Requests(end)` in order. `all_data` is their pages, concatenated in request order. The progress and pause logs are those of the requests. |
| KuCoin.RequestsInRange | kucoin_service.py:57-88 | The first request asks for `endAt = end`. Every `endAt` is after the start and at most the initial cursor. There is a request exactly when `start < end`. |
| KuCoin.RequestsStep | kucoin_service.py:76-88 | Each later request asks for the previous page's last-row timestamp minus one. The `endAt` values strictly decrease, so there are at most `end - start` requests. |
| KuCoin.RequestsStop | kucoin_service.py:69-95 | After the last request the loop stops: that request failed, returned an empty page, or reached the start. |
| KuCoin.PartialResultOnFailure | kucoin_service.py:92-95 | An exception keeps the pages received before it. Every earlier page was non-empty, and the failed request adds nothing. |
| KuCoin.FractionBounds | kucoin_service.py:55-80 | The progress value lies in [0, 1]. It is 1 once the oldest row is at or before the start. |
| KuCoin.FractionMonotone | kucoin_service.py:79-80 | An older row gives at least as much progress. |
| KuCoin.ProgressIndexed | kucoin_service.py:78-81 | The i-th progress value comes from the i-th request's page. Only the last request can lack one. |
| KuCoin.ProgressOfLoop | kucoin_service.py:55-81 | The reported values are in [0, 1] and never go back. The last one is 1 when the loop stopped by reaching the start. |
| KuCoin.KeepFirst | kucoin_service.py:102 | `drop_duplicates(subset=['Timestamp'])`: the input rows in order, each dropped when an earlier row has its timestamp. The result is no longer than the input and made of input rows. |
| KuCoin.KeepFirstTimestamps | kucoin_service.py:102 | Deduplication keeps every timestamp and leaves each one once. |
| KuCoin.KeepFirstKeepsFirst | kucoin_service.py:102 | Each kept row is the first input row with its timestamp. |
| KuCoin.DropDuplicateTimestamps | kucoin_service.py:102 | The one-pass loop with a set of seen timestamps computes `KeepFirst`. |
| KuCoin.WithinRange | kucoin_service.py:110 | Every kept row is in the inclusive range `[start, end]`. |
| KuCoin.WithinRangeKeeps | kucoin_service.py:110 | The filter keeps every input row of the range and adds no row. |
| KuCoin.WithinRangeUnique | kucoin_service.py:110 | Filtering keeps timestamps unique. |
| KuCoin.WithinRangeTimestamps | kucoin_service.py:110 | The filtered timestamps are exactly the input's timestamps in range. |
| KuCoin.Insert | kucoin_service.py:112 | Inserting into a sorted sequence keeps it sorted and adds one row. |
| KuCoin.InsertPermutes | kucoin_service.py:112 | Insertion adds exactly the new row to the multiset. |
| KuCoin.SortByTimestamp | kucoin_service.py:112 | The result is sorted by timestamp and is a permutation of the input. |
| KuCoin.SortStrict | kucoin_service.py:112 | Rows with unique timestamps sort into strictly increasing order. |
| KuCoin.AscendingPairwise | kucoin_service.py:112 | Adjacent strict order implies strict order between any two rows. |
| KuCoin.Reorder | kucoin_service.py:101-113 | The raw columns `Timestamp, Open, Close, High, Low, Amount, Volume` go to `Timestamp, Open, High, Low, Close, Amount, Volume`. Reordering back gives the raw row. |
| KuCoin.ReorderToRaw | kucoin_service.py:101-113 | The reordering is a bijection: reordering the raw form of a candle gives it back. |
| KuCoin.Candles | kucoin_service.py:113 | One candle per row, each the reordered row. |
| KuCoin.CandlesKeepTimestamps | kucoin_service.py:113 | Reordering keeps each row's timestamp. |
| KuCoin.Assemble | kucoin_service.py:97-113 | `pd.DataFrame()` exactly when nothing was received. |
| KuCoin.Series | kucoin_service.py:102-112 | The received rows deduplicated, filtered to the range and sorted; its properties are those of the `Series` lemmas below. |
| KuCoin.SeriesAscending | kucoin_service.py:102-112 | The assembled rows are strictly increasing by timestamp. |
| KuCoin.SeriesRows | kucoin_service.py:102-112 | Each assembled row is in range and is the first received row with its timestamp. |
| KuCoin.SeriesTimestamps | kucoin_service.py:102-112 | The assembled timestamps are exactly the received timestamps in range. |
| KuCoin.AssembleSpec | kucoin_service.py:97-113 | A non-empty fetch gives a table that is strictly ascending and inside `[start, end]`. It holds every received timestamp of the range. Each row is the first received row with that timestamp, reordered. |
| KuCoin.GetKlineDataAsDataframe | kucoin_service.py:39-116 | The symbol is `_format_symbol(pair)` and the requests are `Requests(end)`. The progress and pauses are those of the requests. The frame is the assembly of the pages received. |
| Sheets.Longest | binance_service.py:173 | The length of the longest cell. |
| Sheets.ColumnWidth | binance_service.py:172-174 | At most 50, and at least `min(len + 2, 50)` of the header and of every cell. It is no more than the header's or some cell's length + 2. |
| Sheets.ColumnWidthDetermined | binance_service.py:173-174 | Any width meeting those bounds equals `min(max(longest cell, header) + 2, 50)`, so the contract of `ColumnWidth` fixes its value. |
| Sheets.KuCoinColumnWidth | kucoin_service.py:140-145 | 20 for a header containing "Timestamp", otherwise the general width. |
| Sheets.KuCoinSheetName | kucoin_service.py:127 | At most 15 characters of the pair (the whole pair when shorter), then `_`, then the interval. |
| Sheets.SheetNameCollision | kucoin_service.py:127 | Any two pairs of at least 15 characters that share their first 15 get the same sheet name, for every interval. |
| Sheets.HeadersAndTimestamp | kucoin_service.py:113-141 | Only the first KuCoin column contains "Timestamp". |
| Sheets.KuCoinLayout | kucoin_service.py:118-145 | No workbook for an empty frame. Otherwise the sheet name, the seven headers, width 20 for the timestamp column and the general width for the rest. |
| Sheets.BinanceLayout | binance_service.py:148-174 | No workbook for an empty frame. Otherwise the sheet is `{symbol}_{interval}` with the frame's columns, and each width is at most 50 and fits its header. |

## Left out

- Network clients, client construction and credentials from the
  environment. The exchanges are parameters.
- python-binance's own forward pagination inside `get_historical_klines`. Its
  code is not part of this model; one call is one outcome.
- Real waiting. `sleep` and `time.sleep` durations are ghost logs in
  integer milliseconds.
- Logging, and the `strftime` text of the progress message. Only the
  progress value is modelled.
- The numeric values of `pd.to_numeric` and `pd.to_datetime`. On the Binance
  side they are opaque functions that may raise. In the KuCoin assembly,
  prices are opaque values and timestamps integer seconds. A conversion
  exception there would propagate out of `get_kline_data_as_dataframe`, and
  that path is not modelled.
- The local-time versus UTC mismatch between `start_at.timestamp()` and
  `to_datetime(unit='s')`, and fractional seconds. Start and end are integer
  seconds on both sides of the filter.
- Rows of the wrong width, which pandas rejects when building the KuCoin
  frame.
- Unicode case mapping. `upper()` maps ASCII letters only; whitespace is
  Python's full set.
- Spreadsheet encoding: xlsxwriter, BytesIO, header formats, and Excel's
  31-character sheet-name limit.
- `limit = 1500` is never passed to the client, so the model has no page-size
  bound.
- KuCoin.Fraction: progress is an exact rational, not a Python float.
  Correctly rounded division keeps its bounds and its monotonicity.
- A progress callback that raises is not modelled; reporting is a ghost log.
- Other exceptions inside the paging loop's `try` are not modelled: a
  non-integer last-row timestamp in `int(kline_chunk[-1][0])`
  (kucoin_service.py:76), or a timestamp `datetime.fromtimestamp` rejects in
  the progress message (kucoin_service.py:81). Such an exception also ends the
  loop, but the current page has already been appended, unlike the failed
  request of `KuCoin.PartialResultOnFailure`.
- The order pandas' sort gives to rows with equal timestamps. It cannot
  matter, because the rows are deduplicated first.
- KuCoin.GetKlineDataAsDataframe and KuCoin.FetchPages require that a
  non-empty page's last row is no later than the requested `endAt`. Without
  that the loop need not terminate, and the model does not cover that case.
- Retry.RetryOnApiError states the sleeps one by one; it does not state their
  total.
- The Streamlit user interface.
