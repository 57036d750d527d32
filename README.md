# Bitcoin address balance checker, modelled in Dafny

The script reads a CSV file of Bitcoin addresses and asks the Blockstream
block explorer about each one. It then writes a CSV report with each address's
transaction count, total received, total sent and balance, or the error its
request raised. This project models the script's logic and proves its
properties. All I/O is left out.

- `text.dfy` (module `Text`): Python's `str.strip()` and `str.lower()`, as the
  header test uses them. `IsHeader` is `addr.lower() == "address"`.
- `seqs.dfy` (module `Seqs`): a generic filter-map over a sequence. This is the
  shape of the loader loop. It also gives the positions of the kept elements.
- `loader.dfy` (module `Loader`): the loop in `main` that builds `addresses`
  from the parsed CSV rows. It skips rows with no fields, trims the first
  field, skips the header and keeps everything else in order.
- `fetcher.dfy` (module `Fetcher`): `get_address_info`. The request's outcome
  is an input: either the text of the exception or the decoded JSON object.
  The result is one of two shapes, `Success(address, txCount, totalReceived,
  totalSent, balance)` or `Failure(address, error)`. Amounts are integer
  satoshis.
- `batch.dfy` (module `Batch`): the loop in `main` that builds `results`. The
  `i`-th request gets the answer `responses[i]`, so a duplicated address gets
  its own lookup, as in the script.
- `report.dfy` (module `Report`): the report's fixed column order and the cells
  each record fills.

The balance is asymmetric. `balance` uses chain statistics only, while
`tx_count`, `total_received` and `total_sent` add in the mempool. The model
keeps this exactly, and `Fetcher.MempoolContribution` and
`Fetcher.BalanceIgnoresMempool` pin it down.

Three behaviours of the code are worth stating plainly:

- A first field that is only whitespace is loaded as the empty address `""`
  (`Loader.EmptyFieldIsLoaded`): a line holding just `"   "`, or one starting
  with a comma, adds `""` to the list.
- `get_address_info` catches only `requests.RequestException`
  (check_btc_balances.py:31); see "Left out" for the inputs that escape it.
- `tx_count` is whatever sum the response's numbers give, so the model uses
  `int` for it and for every amount.

## Model

| member | source | states |
|---|---|---|
| `Text.StripSpec` | check_btc_balances.py:43 | the trimmed address is a contiguous piece of the field; everything cut off before and after it is whitespace; it neither starts nor ends with whitespace |
| `Text.StripUnique` | check_btc_balances.py:43 | for any split of a field into whitespace, a core with no whitespace at either end, and whitespace, trimming returns exactly that core |
| `Text.StripIdempotent` | check_btc_balances.py:43 | trimming an already trimmed value changes nothing |
| `Text.Lower` | check_btc_balances.py:44 | lower-casing keeps the length and lower-cases each character in place |
| `Text.HeaderIff` | check_btc_balances.py:44 | a trimmed value is taken for the header exactly when it has seven letters, each being the letter of `address` in lower or upper case |
| `Text.NearHeadersAreNotHeaders` | check_btc_balances.py:44 | `Address` and `ADDRESS` are headers; `Address2` and `addresses` are not |
| `Loader.LoadAddresses` | check_btc_balances.py:35-46 | the loop's list is the filter-map `Loaded` of the rows, whose properties the lemmas below state |
| `Loader.LoadedAppend` | check_btc_balances.py:40-46 | rows are handled one at a time and independently: loading two runs of rows concatenates their addresses |
| `Loader.BlankRowSkipped` | check_btc_balances.py:41-42 | inserting a row with no fields anywhere changes nothing in the loaded list |
| `Loader.LoadedBounds` | check_btc_balances.py:43-46 | there are at most as many addresses as rows, and no loaded address is a header |
| `Loader.LoadedFromRows` | check_btc_balances.py:40-46 | the k-th address is the trimmed first field of a non-blank row, and the source rows are strictly increasing, so input order is kept and duplicates are kept |
| `Loader.OriginsComplete` | check_btc_balances.py:40-46 | a row supplies an address if and only if it has fields and its trimmed first field is not a header |
| `Loader.PlainRowLoaded` | check_btc_balances.py:43-46 | a single-field row whose value has no surrounding whitespace and is not a header loads that value unchanged |
| `Loader.HeaderRowSkipped` | check_btc_balances.py:44-45 | a row holding `address` loads nothing |
| `Loader.HeaderLineScenario` | check_btc_balances.py:40-46 | lines `a1`, `address`, `a2` load exactly `[a1, a2]` |
| `Loader.ScenarioValuesArePlain` | check_btc_balances.py:40-46 | `addr1` and `addr2` have no surrounding whitespace and are not headers, and the three lines `addr1`, `address`, `addr2` load exactly `["addr1", "addr2"]` |
| `Loader.PaddedHeaderSkipped` | check_btc_balances.py:43-45 | the header is still skipped with surrounding whitespace, upper case and further columns |
| `Loader.EmptyFieldIsLoaded` | check_btc_balances.py:43-46 | a first field that is only whitespace loads the empty address |
| `Fetcher.Normalize` | check_btc_balances.py:16-29 | a decoded response gives the success shape for the same address; received minus sent equals the balance plus the mempool's net amount |
| `Fetcher.GetAddressInfo` | check_btc_balances.py:9-32 | every record carries the input address; it is the error shape, holding the request's error text, exactly when the request failed; otherwise it is the normalised response |
| `Fetcher.ChainOnlyFigures` | check_btc_balances.py:16-22 | without mempool statistics, the transaction count, received and sent are the `chain_stats` figures and the balance is chain `funded_txo_sum` minus chain `spent_txo_sum`; with `MempoolContribution` this fixes all four fields for every response |
| `Fetcher.MempoolContribution` | check_btc_balances.py:16-22 | the transaction count, received and sent are the chain-only figures plus the mempool's, while the balance equals the chain-only balance |
| `Fetcher.BalanceIgnoresMempool` | check_btc_balances.py:22 | replacing the mempool statistics by anything leaves the balance unchanged |
| `Fetcher.BalanceWithoutMempool` | check_btc_balances.py:20-22 | with no mempool statistics, the balance is total received minus total sent |
| `Fetcher.MissingSectionIsZero` | check_btc_balances.py:16-17 | a missing `chain_stats` or `mempool_stats` object counts as one whose three fields are 0 |
| `Fetcher.MissingFieldIsZero` | check_btc_balances.py:19-22 | a missing field counts as 0 |
| `Fetcher.EmptyResponse` | check_btc_balances.py:16-29 | an empty response object gives a record of zeros |
| `Fetcher.MixedResponseExample` | check_btc_balances.py:16-29 | chain {2, 500000000, 100000000} and mempool {1, 50000000, 0} give 3 transactions, 550000000 received, 100000000 sent and a balance of 400000000 satoshis |
| `Batch.Results` | check_btc_balances.py:50-54 | a run yields exactly one record per address |
| `Batch.RunBatch` | check_btc_balances.py:50-54 | the loop's list is `Results` of the addresses and the answers |
| `Batch.Run` | check_btc_balances.py:35-54 | `main` up to the report returns `Results` of the loaded addresses |
| `Batch.ResultsAt` | check_btc_balances.py:51-54 | the i-th record is the lookup of the i-th address with the i-th answer |
| `Batch.AddressesKept` | check_btc_balances.py:50-54 | one record per address, in the same order, each carrying its address |
| `Batch.FailureIsolated` | check_btc_balances.py:50-54 | a failed request at one position yields the error shape there and changes no record before or after it |
| `Batch.ResultsAppend` | check_btc_balances.py:50-54 | running two batches in turn equals running their concatenation |
| `Batch.ReportSize` | check_btc_balances.py:40-54 | the report has one record per non-blank, non-header row, in row order, each carrying that row's trimmed first field |
| `Report.KeysAreColumns` | check_btc_balances.py:58-62 | every key of every record is a report column; `address` is always present; `error` is present exactly for failures |
| `Report.RowMatchesKeys` | check_btc_balances.py:58-62 | a report row has one cell per column; a cell is blank exactly when the record has no key for that column; the first cell is the address |

## Left out

- The HTTP request, `raise_for_status`, the 10-second timeout and JSON
  decoding (check_btc_balances.py:12-14) are network and library code. Their
  outcome is the `Response` input. `RequestFailed` carries the text
  `str(e)` of the exception.
- Which exceptions are caught (check_btc_balances.py:31) is library detail.
  Any failed request is `RequestFailed`. Some inputs make the script raise an
  exception that `RequestException` does not cover, which ends the whole run:
  a JSON body that is not an object, a `null` statistics object, or a
  non-numeric amount. The `Response` type cannot express them.
- CSV tokenising by `csv.reader` (check_btc_balances.py:39) is library code,
  so rows come in already parsed. Serialising by `csv.DictWriter`
  (check_btc_balances.py:59-62) is library code too: only the column order and
  the blank cells are modelled, not the CSV text.
- Opening and encoding the files (check_btc_balances.py:38, 59), the progress
  and completion prints (check_btc_balances.py:48, 52, 64) and the 0.5-second
  sleep (check_btc_balances.py:55) are I/O and timing.
- The floating-point division by `1e8` (check_btc_balances.py:26-28) is left
  out. Amounts stay integer satoshis.
- `Text.Lower` lower-cases ASCII letters only. The only non-ASCII characters
  whose Python lower case contains an ASCII letter are U+0130, which lowers to
  `i` plus a combining dot, and the Kelvin sign U+212A, which lowers to `k`.
  Neither `i` nor `k` is a letter of `address`, so the header test gives the
  same answer as Python's.
- `Text.IsSpace` lists the code points Python's `str.isspace` accepts, so
  `Text.Strip` is the whole of `str.strip()`.
- `Batch.RunBatch` takes one answer per request as an input sequence whose
  length matches the addresses, because the remote service is not part of
  the model.
