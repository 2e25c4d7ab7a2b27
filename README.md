# Binance MCP server: symbol resolution, price handlers and the activity log

This project models the core of a small MCP server that fronts the Binance
price API (`binance_mcp_reference_implementation/binance_mcp_w_resource.py`).
It covers:

- **Symbol resolution** (`get_symbol_from_name`, module `SymbolResolution`):
  the names `bitcoin`/`btc` and `ethereum`/`eth`, in any letter case, become
  `BTCUSDT` and `ETHUSDT`. Every other name is upper-cased. Python's
  `str.lower`, `str.upper` and `str(int)` are modelled in module `Text`.
- **The activity log** (`activity.log`, module `ActivityLogFile`): a class
  `ActivityLog` with two fields. `present` says whether the file exists, and
  `lines` holds its lines. The start-up step creates the file when it is
  missing. Appending adds one line. The `file://activity.log` resource reads
  the whole text.
- **The spot-price tool** `get_price` and the resource
  `resource://crypto_price/{symbol}` that calls it (module `PriceServer`).
  The upstream HTTP reply and the current time are parameters. `PriceCall`
  states what a call returns and which lines it appends. The methods
  `GetPrice` and `GetCryptoPrice` change the log exactly as `PriceCall` says.
- **The 24-hour statistics tool** `get_price_price_change` (`PriceChange`):
  it fails on an HTTP 4xx or 5xx status and on a body that is not JSON, and
  otherwise passes the decoded body through unchanged. It never writes to the
  log.
- **A run of requests** (module `ServerSession`): the transport delivers one
  request at a time. `Handle` serves one request that has already been routed
  to its handler, and changes the log as `LogAfter` says. After any run, the
  earlier log lines are kept in order. They are followed by the success line
  of each request that fetched a price, in request order, and nothing else.

The model follows the code where it departs from the intended design:

- On a non-200 status, `get_price` returns the dictionary
  `{"error": "Failed to fetch price for symbol S. Status code: N"}` at line 39.
  The log append and the `raise` on lines 41-45 come after that `return` and
  are never reached. So a failed fetch writes nothing to the log and raises
  nothing.
- The success sentence ends with a period (line 52).
- Reading the `resource://crypto_price/{symbol}` resource calls `get_price`,
  so it appends to the log like the tool does.
- The spot-price host is `api.binance.us` (line 35).
- Reading `file://activity.log` when the file does not exist raises
  `FileNotFoundError` (line 77). It does not return empty text.
  `ActivityLog.Read` returns `FileNotFound` in that case.
- A 200 reply whose body has no usable price raises at line 47 before
  anything is logged. A body that is not JSON raises `JsonDecodeError`. JSON
  that is not an object (an array, a string, a number or `null`) raises
  `TypeError`. An object without a `price` field raises `KeyError("price")`.

## Model

| member | source | states |
|---|---|---|
| Text.Lower | binance_mcp_reference_implementation/binance_mcp_w_resource.py:15 | `name.lower()` keeps the length and lowers each character |
| Text.Upper | binance_mcp_reference_implementation/binance_mcp_w_resource.py:20 | `name.upper()` keeps the length and raises each character |
| Text.UpperIsIdempotent | binance_mcp_reference_implementation/binance_mcp_w_resource.py:20 | upper-casing twice is upper-casing once, and leaves no lower-case letter |
| Text.LowerOfUpper | binance_mcp_reference_implementation/binance_mcp_w_resource.py:15-20 | lowering an upper-cased name gives the lowered name |
| Text.UpperOfLower | binance_mcp_reference_implementation/binance_mcp_w_resource.py:15-20 | upper-casing a lowered name gives the upper-cased name |
| Text.SameUpToCaseIff | binance_mcp_reference_implementation/binance_mcp_w_resource.py:15-20 | two names differ only in letter case iff their lowered forms are equal; then their upper-cased forms are equal too |
| Text.NatToDecimal | binance_mcp_reference_implementation/binance_mcp_w_resource.py:39 | the digits of a natural number: never empty, all decimal digits, and no leading zero except for zero itself |
| Text.IntToDecimal | binance_mcp_reference_implementation/binance_mcp_w_resource.py:39 | `str(status)`: it starts with a minus sign exactly for a negative status, and the rest is all digits |
| Text.NatToDecimalRoundTrip | binance_mcp_reference_implementation/binance_mcp_w_resource.py:39 | the digits printed for a natural number read back as that number |
| Text.IntToDecimalRoundTrip | binance_mcp_reference_implementation/binance_mcp_w_resource.py:39 | the text `str(status)` put into the error message parses back to the status, sign included |
| SymbolResolution.SymbolFromName | binance_mcp_reference_implementation/binance_mcp_w_resource.py:14-20 | the ticker is `BTCUSDT`, `ETHUSDT` or the name itself with only its letter case changed, and never holds a lower-case letter |
| SymbolResolution.ResolvesToBitcoinIff | binance_mcp_reference_implementation/binance_mcp_w_resource.py:14-20 | a name resolves to `BTCUSDT` iff its lower-case form is `bitcoin`, `btc` or `btcusdt` |
| SymbolResolution.ResolvesToEtherIff | binance_mcp_reference_implementation/binance_mcp_w_resource.py:14-20 | a name resolves to `ETHUSDT` iff its lower-case form is `ethereum`, `eth` or `ethusdt` |
| SymbolResolution.ResolveFallback | binance_mcp_reference_implementation/binance_mcp_w_resource.py:19-20 | a name outside the four aliases resolves to its upper-case form, which differs from it only in letter case |
| SymbolResolution.ResolveIgnoresCase | binance_mcp_reference_implementation/binance_mcp_w_resource.py:14-20 | names that differ only in letter case resolve to the same ticker |
| SymbolResolution.ResolvedHasNoLower | binance_mcp_reference_implementation/binance_mcp_w_resource.py:14-20 | a resolved symbol holds no lower-case letter |
| SymbolResolution.ResolveIsIdempotent | binance_mcp_reference_implementation/binance_mcp_w_resource.py:14-20 | resolving an already resolved symbol returns it unchanged |
| ActivityLogFile.Render | binance_mcp_reference_implementation/binance_mcp_w_resource.py:48-51 | the file text of a list of lines is empty only when there are no lines, and otherwise ends in a newline |
| ActivityLogFile.RenderConcat | binance_mcp_reference_implementation/binance_mcp_w_resource.py:48-51 | the file text of two runs of lines is the first run's text followed by the second's |
| ActivityLogFile.RenderAppend | binance_mcp_reference_implementation/binance_mcp_w_resource.py:48-51 | one more line adds exactly that line and a newline at the end of the text |
| ActivityLogFile.RenderLineCount | binance_mcp_reference_implementation/binance_mcp_w_resource.py:48-51 | when no entry holds a line feed or carriage return, the file has exactly one line per entry |
| ActivityLogFile.ActivityLog.constructor | binance_mcp_reference_implementation/binance_mcp_w_resource.py:10 | the log file as the process finds it at start-up; a missing file holds no lines |
| ActivityLogFile.ActivityLog.EnsureExists | binance_mcp_reference_implementation/binance_mcp_w_resource.py:179-180 | afterwards the file exists and its lines are the ones it had, so a second call changes nothing |
| ActivityLogFile.ActivityLog.Append | binance_mcp_reference_implementation/binance_mcp_w_resource.py:48-51 | afterwards the file exists and holds the old lines followed by the new one; its text is the old text plus the line and a newline |
| ActivityLogFile.ActivityLog.Read | binance_mcp_reference_implementation/binance_mcp_w_resource.py:75-78 | returns the file's whole text when it exists and `FileNotFound` when it does not; the log is not changed |
| PriceServer.PriceCall | binance_mcp_reference_implementation/binance_mcp_w_resource.py:34-52 | a call appends at most one line; it appends one exactly when it returns the price text, which happens exactly on status 200 with a price in the body |
| PriceServer.FailedFetchReport | binance_mcp_reference_implementation/binance_mcp_w_resource.py:38-39 | on a non-200 status nothing is logged; the returned error is exactly `Failed to fetch price for symbol {resolved}. Status code: {str(status)}`, and the status parses back out of it |
| PriceServer.SuccessfulFetchReport | binance_mcp_reference_implementation/binance_mcp_w_resource.py:46-52 | on status 200 with a price, the result is `The current price of {resolved} is {price}.` with the upstream price verbatim, and exactly the line `Successfully fetched price for {resolved}: {price}, Current Time: {now}` is appended |
| PriceServer.UndecodableFetchReport | binance_mcp_reference_implementation/binance_mcp_w_resource.py:47 | on status 200 with no usable price, the call logs nothing and raises `JsonDecodeError` for a body that is not JSON, `TypeError` for JSON that is not an object, and `KeyError("price")` for an object without the field |
| PriceServer.GetPrice | binance_mcp_reference_implementation/binance_mcp_w_resource.py:22-52 | returns what `PriceCall` gives; the new log is the old log followed by `PriceCall`'s lines; the file exists afterwards if it did before or a line was written |
| PriceServer.GetCryptoPrice | binance_mcp_reference_implementation/binance_mcp_w_resource.py:81-83 | reading the resource gives the same result and the same log change as the `get_price` tool |
| PriceServer.RaiseForStatus | binance_mcp_reference_implementation/binance_mcp_w_resource.py:71 | raises an HTTP error carrying the status and URL exactly when the status is in [400, 600) |
| PriceServer.PriceChange | binance_mcp_reference_implementation/binance_mcp_w_resource.py:56-72 | fails iff the status is in [400, 600) or the body is not JSON, with the status and the request URL built at line 69 on an HTTP error; otherwise returns the upstream body unchanged |
| ServerSession.LogAfter | binance_mcp_reference_implementation/binance_mcp_w_resource.py:38-51 | the log after a run of requests always starts with the log before it |
| ServerSession.AppendedByOne | binance_mcp_reference_implementation/binance_mcp_w_resource.py:38-51 | one request appends its success line if it fetched a price and nothing otherwise; statistics and log reads append nothing |
| ServerSession.LogAfterRun | binance_mcp_reference_implementation/binance_mcp_w_resource.py:38-51 | after any run of requests the log is the earlier lines followed by the success line of each request that fetched a price, in request order, and nothing else |
| ServerSession.NewLinesAreSuccessEntries | binance_mcp_reference_implementation/binance_mcp_w_resource.py:48-51 | every entry a run adds is in the success format |
| ServerSession.FreshLogCountsFetches | binance_mcp_reference_implementation/binance_mcp_w_resource.py:179-180 | starting from a freshly created log, the log holds exactly as many entries as prices fetched, all in the success format |
| ServerSession.Handle | binance_mcp_reference_implementation/binance_mcp_w_resource.py:56-83 | serving one request returns what its handler returns, and leaves the log as `LogAfter` gives for that request |

## Left out

- HTTP requests (`requests.get`): each handler takes the upstream reply as a parameter. The reply is a status and the outcome of decoding its body. Network failures (connection errors, timeouts) are not modelled.
- JSON decoding: the spot body is abstracted to "price text", "object without a price field", "JSON that is not an object" or "not JSON". A non-string price is taken as its printed text. The statistics body is an opaque decoded value.
- PriceServer.RaiseForStatus: the HTTP error carries the status and a URL only. The reason phrase in `requests`' message is not modelled.
- PriceServer.PriceChange: the URL in its HTTP error is the request URL as built at line 69. `requests` reports `response.url`, which is percent-encoded (a space becomes `%20`) and is the final URL after any redirect; neither encoding nor redirects are modelled.
- `datetime.now()`: the time is an opaque text parameter. Its format is not modelled.
- File I/O: the log is held as a list of entries plus an "exists" flag, each entry written followed by a newline. An existing file whose text does not end in a newline is not modelled.
- ServerSession.NewLinesAreSuccessEntries: speaks of entries. An entry is one line of the file only when it holds no line feed or carriage return (`RenderLineCount`). The upstream price, the name and the time are free text, so one fetch can write more than one file line, and only the first starts in the success format.
- ServerSession.FreshLogCountsFetches: counts entries, which equal file lines only under the same condition.
- ActivityLogFile.ActivityLog.Read: returns the text as written. Python's text-mode read turns `"\r\n"` and `"\r"` into `"\n"`; that translation is not modelled, so the two agree only when no entry holds a carriage return.
- Case mapping: only the ASCII letters are mapped. Python's `str.lower` and `str.upper` also map other Unicode letters, sometimes changing the length (`'ß'.upper()` is `'SS'`). The lemmas below are proved of this ASCII mapping and hold of the program only for ASCII names.
- Text.LowerOfUpper: false in Python for some non-ASCII text (`"ß".upper().lower()` is `"ss"`).
- Text.UpperOfLower: false in Python for some non-ASCII text (the Kelvin sign U+212A lowers to `"k"`, which upper-cases to `"K"`, while upper-casing the Kelvin sign keeps it).
- SymbolResolution.ResolvesToBitcoinIff: `"btcuſdt"` resolves to `BTCUSDT` in Python although its lower-case form is not `btcusdt`.
- SymbolResolution.ResolvesToEtherIff: the same holds for `"ethuſdt"` and `ETHUSDT`.
- SymbolResolution.ResolveIsIdempotent: in Python `"bıtcoin"` resolves to `BITCOIN`, which resolves to `BTCUSDT`.
- The FastMCP server object, tool and resource registration, parsing of URIs and arguments, and `mcp.run()`: framework and transport code with no logic of this server. `ServerSession.Handle` takes a request already routed to its handler.
- `get_option_premium` (lines 91-174): built on yfinance and pandas calls and floating-point strike matching.
- The `file://symbol_map.csv` resource (lines 86-89): a plain file read of a file that is not part of this model.
- The start-up `print` (line 177): diagnostic output only.
