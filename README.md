# Exchange-rate history: collect and reshape

This project models the data path of a small command-line program that asks a
bank's public API for the exchange rates of the last `days` days and prints
them. The program does three things, and the model covers each one:

- **Parsing one response** (`CurrencyParser.parse_exchange_rates`). It takes
  the `exchangeRate` field of the decoded response. If the field is missing it
  returns an empty list and does not fail.
- **Collecting the days** (`CurrencyFetcher.fetch_currency_data`). For
  `i = 0, 1, …, days - 1` it builds the date `i` days before now, requests that
  date and parses the response. It appends one `{date: rates}` record per day,
  so the most recent day comes first.
- **Formatting** (`format_output`). Each `{date: rates}` record becomes
  `{date: {currency: {sale, purchase}}}`. Only the sale and purchase rates are
  kept. When a currency code appears twice in one day, the later entry
  overwrites the earlier one.

The model is split into these modules:

- `Rates`: the data model.
- `CurrencyParser`: the lookup with a default.
- `Format`: a specification function `Reshape` for the inner loop, and the
  imperative `FormatOutput` with its two nested loops, proved against
  `FormatDay`.
- `Fetcher`: the `CurrencyFetcher` class and its collection loop.
- `Pipeline`: the part of `main` that chains collecting and formatting.

Other points about the model:

- Rate values are JSON scalars that the program copies through without looking
  at them. The model gives them the opaque type parameter `V`.
- The clock and the network are parameters. `dateOf(i)` is the date the
  program formats on iteration `i`. It is an arbitrary function: the program
  reads the clock again on every iteration (main.py:30), so a run that crosses
  midnight can produce the same date twice. The model therefore does not
  assume the dates are distinct or consecutive. `fetch(date)` stands for the
  one request made for that date: its decoded response, or the error it raised.
- A request that raises ends the whole collection with that error, because
  nothing in the program catches it. The model states this as a `Result`: it is
  a success exactly when every request succeeds. On failure it carries the
  error of the first request that failed.
- A zero or negative `days` gives an empty list. The argument parser accepts
  any integer (main.py:56), and `range(days)` is empty for `days <= 0`
  (main.py:29).

## Model

| member | source | states |
|---|---|---|
| `CurrencyParser.ParseExchangeRates` | main.py:17-19 | when the document has an `exchangeRate` field, the result is that field's value; when it does not, the result is the empty rate list; it is total, so it never fails |
| `CurrencyParser.ParseWellFormed` | main.py:19 | the parse gives a rate list exactly when the document has no `exchangeRate` field or that field holds a rate list |
| `CurrencyParser.ParseIgnoresOtherFields` | main.py:19 | adding or changing any other top-level field of the document does not change the parse |
| `Rates.QuoteOf` | main.py:45-48 | a definition, not a proved property: the output quote of a rate record is `{sale: saleRate, purchase: purchaseRate}` |
| `Format.Reshape` | main.py:43-48 | the currency keys of a formatted day are exactly the set of `currency` codes in that day's rate list |
| `Format.ReshapeLastWins` | main.py:43-48 | when index `i` is the last occurrence of its code, the code is in the map and its quote is `{sale: saleRate, purchase: purchaseRate}` of entry `i`: the last duplicate wins |
| `Format.ReshapeFromLast` | main.py:43-48 | the converse: every code in the map has a last occurrence in the list, and its quote comes from that entry |
| `Format.ReshapeIgnoresExtra` | main.py:45-48 | two rate lists that agree on code, sale and purchase at every position format the same, so no other rate field reaches the output |
| `Format.FormatDay` | main.py:40-45 | a formatted record has exactly one key, the input record's date, and its currency keys are the codes of the record's rates |
| `Format.FormatDayEmpty` | main.py:41-43 | a record whose rate list is empty becomes `{date: {}}` |
| `Format.FormatOutput` | main.py:37-52 | the output has one record per input record, in input order, and record `k` is the formatted form of input record `k` |
| `Fetcher.DayCount` | main.py:29 | a definition, not a proved property: the number of iterations of `range(days)`, which is `0` for `days <= 0` and `days` otherwise |
| `Fetcher.CurrencyFetcher.constructor` | main.py:22-23 | the fetcher keeps the requested day count |
| `Fetcher.CurrencyFetcher.FetchCurrencyData` | main.py:25-35 | it succeeds exactly when every request for `i` in `range(days)` succeeds; on success it returns `max(days, 0)` records, and record `i` is keyed by `dateOf(i)` and holds the parse of the response for that date; on failure it returns the error of the first failed request, and every earlier request succeeded |
| `Pipeline.Run` | main.py:59-61 | collecting then formatting gives one single-key record per day, in increasing `i` starting at `i = 0`, each the reshaped `exchangeRate` list fetched for `dateOf(i)`; it fails exactly when a request fails, with the first failure's error; a response's rates need to be a list only when every request succeeds |

## Left out

- HTTP fetching in `ApiRequester.fetch_data` (main.py:7-13) is network I/O. It is the parameter `fetch`, which returns a decoded document or an error.
- The `asyncio` scheduling and each `await` (main.py:25, 31, 54, 65) are left out. The model runs the same steps sequentially, in the order the awaits complete.
- `Fetcher.CurrencyFetcher.FetchCurrencyData` and `Pipeline.Run` do not model the calendar overflow: `datetime.now() - timedelta(days=i)` (main.py:30) raises `OverflowError` once `i` exceeds the number of days since 1 January of year 1, so for a very large `days` the program fails after that many requests, while the model, whose `dateOf` is total, succeeds when every request does.
- `datetime.now()`, `timedelta` and `strftime("%d.%m.%Y")` (main.py:30) are the system clock and library calendar code. They are the parameter `dateOf`, so the model does not compute calendar dates.
- `json.loads` (main.py:18) is library JSON parsing, so the model parses an already-decoded document. As written, the code passes the dictionary already decoded by `response.json()` (main.py:13) to `json.loads`, and in Python that raises. The model does not capture this failure.
- Argument parsing, `json.dumps` and printing in `main` (main.py:54-57, 62) are command-line glue and library serialisation.
- A rate record that lacks `currency`, `saleRate` or `purchaseRate` raises `KeyError` in the code (main.py:44-47). The record type `RawRate` always has these fields, so the model assumes they are present.
- An input record with more or fewer than one key (main.py:40) is not modelled. A collected record is a (date, rates) pair, as the collector builds it.
- `Pipeline.Run`, `Format.FormatOutput` and `Format.FormatDay` require each formatted day's value to be a list of rate records. `Run` asks this only in runs where every request succeeds, because otherwise the first failed request ends the run before any formatting (main.py:31). For any other value the model describes neither outcome of the inner loop (main.py:43). A number, `null`, a boolean, a non-empty string or a non-empty object makes that loop raise. An empty string or an empty object makes it run zero times, and the day becomes `{date: {}}`.
- `Format.Reshape` returns a map, so it does not keep the insertion order of the Python dictionary built at main.py:45. That order is the order in which `json.dumps` prints the currencies: first occurrence first, and a duplicate keeps its first slot. Nothing else in the program depends on it.
- The socket variant with its command dispatcher and log file is not part of this model.
