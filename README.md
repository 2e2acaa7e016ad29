# Security-ID resolution cache of the TradingView-to-Dhan webhook bridge

The bridge turns a TradingView alert into a Dhan order. To place the order it needs Dhan's
security ID for a (ticker, instrument, exchange) triple. `get_security_id` in `main.py` finds it
by trying three tiers in a fixed order:

1. the in-memory map `symbol_cache`, keyed by `"{exchange}:{symbol}:{instrument}"`;
2. the loaded table `csv_cache["data"]` (rows of exchange, trading symbol, series and security
   ID), where the first matching row wins;
3. the broker's full instrument catalog, where a hit is written back: it is appended to
   `security_id_list.csv` if absent, put into memory, and the table is reloaded from the file.

At startup, `load_csv_cache` provisions the table from the local file, else from a download,
else by writing an empty header-only file.

This project models that core in Dafny:

- `wrappers.dfy`: the `Option` type.
- `dataset.dfy` (module `Dataset`) holds the table as values:
  - which of the four named columns the header has, and the rows in file order;
  - the three pandas filters as first-index searches;
  - the dataset-tier lookup and the catalog matcher;
  - append-if-absent as a function on the file.
- `dataset_store.dfy` (module `DatasetStore`): the file as a mutable object, `DatasetFile`. Its
  methods are `create_empty_csv`, `save_security_id_to_csv` and the write done by a successful
  download.
- `resolution.dfy` (module `Resolution`):
  - `Resolve`: `get_security_id` as a function from the state before a call to the result and
    the state after it;
  - `Provision`: `load_csv_cache` in the same form;
  - the lemmas stating the tier properties.
- `resolution_cache.dfy` (module `ResolutionCache`): the class `Resolver`.
  - Its fields are `symbol_cache` and the three entries of `csv_cache`, over a `DatasetFile`.
  - Its methods `GetSecurityId` and `LoadCsvCache` run step by step as the source does.
  - Each is proved equal to `Resolve` or `Provision`.
- `alert.dfy` (module `Alert`): the handler's payload normalisation (upper-cased symbol and
  action, `NSE`/`EQ` defaults) and its BUY/SELL and positive-quantity check.

The outside world is reduced to values:

- the file is `Option<Content>`: absent, a parsed table, or content that `read_csv` rejects
  with a reason;
- the broker's reply is `Option<Table>`: `None` stands for no client, a `None` list, or a call
  that raised;
- the download outcome and `CSV_DOWNLOAD_URL` are parameters of `LoadCsvCache`.

Tracking which columns a table has lets the model follow the code's `KeyError` paths:

- a dataset scan that raises is swallowed, and resolution falls through to the remote tier;
- `save_security_id_to_csv` reports False;
- the catalog matcher gives `None`.

Where the design description and the code differ, the model follows the code:

- The catalog match compares trading symbol and series only; it does NOT restrict to the
  exchange (`main.py:199-202`). `RemoteIgnoresExchange` shows a BSE catalog row answering an NSE
  query. That row is then saved under NSE.
- There is no time-based expiry of a downloaded file, no static fallback table and no remote
  timeout.
- After an empty start, `csv_cache["data"]` stays unset, so the dataset tier is off. The first
  remote hit turns it back on by reloading the file, while `source` still reads `none`
  (`EmptyStartThenWriteBack`).
- The reload at `main.py:295` is outside any `try`. If the file cannot be parsed, the call raises
  after `symbol_cache` was already updated. This is `Lookup.Raised`, and the next call is
  answered from memory.
- The memory key is plain string concatenation. Two triples whose fields contain `:` can share a
  key (`CacheKeyCollision`, `AliasedKeysShareMemory`). Colon-free triples cannot
  (`CacheKeyInjective`).
- `if security_id:` treats an empty ID from the catalog as a miss. The model does the same.

## Model

| member | source | states |
|---|---|---|
| `Dataset.FirstMatch` | main.py:274-281 | the index is the first row the filter keeps: it matches and no earlier row does; None exactly when no row matches |
| `Dataset.FirstMatchUnique` | main.py:280-281 | first-match determinism: any row that is the first match is the one `iloc[0]` picks |
| `Dataset.NoMatchIffCountZero` | main.py:159-165 | the filtered frame is empty exactly when the first-match search finds nothing |
| `Dataset.CountMatchesAppend` | main.py:172 | appending a row raises the number of key matches by one exactly when that row matches |
| `Dataset.FirstMatchAppend` | main.py:172-173 | appending at the end never moves an existing first match; the new row is the first match only when none existed |
| `Dataset.DatasetLookup` | main.py:272-289 | the dataset tier yields an ID exactly when all four columns are present and some row matches exchange, symbol and series; the ID is that of the first such row |
| `Dataset.CatalogLookup` | main.py:182-214 | the remote matcher yields an ID exactly when a catalog exists with the symbol, series and ID columns and some row matches symbol and series (exchange not compared); the ID is that of the first such row |
| `Dataset.AppendIfAbsentSpec` | main.py:151-179 | a row is appended (True) exactly when the file is absent, or readable with the key columns and no row with the key; then old rows keep their order and the record is last; otherwise False and the file is unchanged |
| `Dataset.AppendIfAbsentTwice` | main.py:159-176 | a second save with the same key returns False and leaves the file as the first left it; after a first save that appended, exactly one row has the key |
| `DatasetStore.DatasetFile.CreateEmpty` | main.py:139-148 | the file becomes the header-only table with the four columns and no rows |
| `DatasetStore.DatasetFile.StoreDownload` | main.py:217-226 | a successful download replaces the file with the downloaded content |
| `DatasetStore.DatasetFile.Save` | main.py:151-179 | returns and leaves on disk exactly what append-if-absent specifies for the old file |
| `Resolution.CacheKeyInjective` | main.py:266 | triples whose exchange and symbol contain no ':' have distinct memory keys |
| `Resolution.CacheKeyCollision` | main.py:266 | ("NSE", "A:B", "EQ") and ("NSE:A", "B", "EQ") produce the same memory key |
| `Resolution.AliasedKeysShareMemory` | main.py:266-270 | once ("A:B", EQ, NSE) is cached, a lookup of ("B", EQ, "NSE:A") returns that cached ID |
| `Resolution.MemoryWins` | main.py:268-270 | a key in memory is answered with its cached value and no part of the state changes, whatever the dataset, file and catalog hold |
| `Resolution.DatasetHit` | main.py:272-284 | on a memory miss, the first matching dataset row's ID is returned and inserted into memory; dataset, file, source and error are unchanged and the catalog is not consulted |
| `Resolution.DatasetTierFallsThrough` | main.py:272-289 | with no dataset loaded, a dataset missing a column, or no matching row, resolution is exactly the remote tier |
| `Resolution.RemoteHitWritesBack` | main.py:289-296 | over an absent or readable file, a non-empty remote ID is returned and cached even when the save returns False; the file goes through append-if-absent (unchanged when it lacks a key column); the dataset is reloaded from it; source and error are kept; when the file has all four columns the dataset tier then answers the key, with the learnt ID if the file had no row for it |
| `Resolution.RemoteHitOnUnreadableFile` | main.py:289-295 | over a file read_csv rejects, the remote ID is cached, the file and dataset stay as they were and the call raises the parse error; a repeat call returns the ID from memory |
| `Resolution.MissChangesNothing` | main.py:289-298 | when memory, dataset and catalog all miss, the result is None and the state is unchanged |
| `Resolution.SecondResolutionFromMemory` | main.py:266-296 | after a call that cached an ID, the same lookup returns it from memory, changes nothing and does not depend on the catalog (one remote call, one append) |
| `Resolution.RemoteIgnoresExchange` | main.py:199-202 | a catalog listing INFY only on BSE answers an NSE query with the BSE ID and that row is saved under NSE |
| `Resolution.ProvisionOrder` | main.py:229-259 | a readable local file is loaded with source `local_file` and True, and nothing is downloaded; otherwise, with a URL, a successful download is stored, and if readable loaded with source `downloaded`, no error and True; otherwise an empty header-only file is written with source `none`, its error text, data untouched and False; a file or download read_csv rejects gives source `error`, the error text with its reason, data kept and False; memory untouched |
| `Resolution.EmptyStartThenWriteBack` | main.py:249-295 | with no file and no URL the dataset tier stays off; the first remote hit creates the file with that one row and loads it, while source stays `none` |
| `Resolution.RestartAnswersFromFile` | main.py:233-298 | after a remote hit on a well-formed file, a restarted process loading that file answers the key from the dataset tier whatever the catalog says |
| `Resolution.InfyScenario` | main.py:262-284 | a dataset row (NSE, INFY, EQ, 1594) answers a cold lookup with 1594 and caches it; a repeat lookup with no dataset still answers 1594 |
| `ResolutionCache.Resolver.constructor` | main.py:135-136 | both caches start empty and the source is unset |
| `ResolutionCache.Resolver.GetSecurityId` | main.py:262-298 | the result and the new state of the caches and file are those of `Resolve` on the old state |
| `ResolutionCache.Resolver.LoadCsvCache` | main.py:229-259 | the result and the new state are those of `Provision` on the old state |
| `Alert.Upper` | main.py:312 | same length; no lower-case ASCII letter remains; other characters unchanged; each lower-case letter becomes its capital |
| `Alert.UpperIdempotent` | main.py:312 | upper-casing twice equals upper-casing once |
| `Alert.AcceptedAlerts` | main.py:314-348 | an alert passes the check exactly when it has a strategy whose action upper-cases to BUY or SELL and whose abs_qty is positive |
| `Alert.NormalizeStable` | main.py:312-317 | the normalised symbol has no lower-case letter and normalising the normalised values again gives the same request |
| `Alert.DefaultsAndCase` | main.py:312-317 | an empty alert normalises to ("", NSE, "", 0, EQ) and is rejected; a lower-case "sell" with quantity 5 is accepted |

## Left out

- FastAPI transport: JSON parsing, the secret check, the HTTP errors, `/health`, `/status`, `/`
  and uvicorn startup. These are I/O plumbing. The handler resolves the symbol before it checks
  action and quantity, so an invalid order still triggers resolution and write-back. That
  ordering is not modelled.
- Credential loading from Google Secret Manager and the environment: configuration over a
  foreign client.
- Broker client construction and `place_order`: foreign calls. The catalog the client would
  return is a parameter.
- `download_csv` itself: its outcome is a parameter. A partial file left by a failed download is
  not modelled.
- pandas parsing, dtypes and CSV text. The file is an abstract table with string fields.
  Neither numeric parsing of symbols or IDs nor `str()` on a NaN ID is modelled.
- `DatasetStore.DatasetFile.Save`: when the file lacks only the ID column, pandas fills the
  old rows' IDs with NaN on append. The model keeps their former values, which carry no meaning.
- I/O failures of `to_csv`. Their exceptions (caught in `create_empty_csv` and
  `save_security_id_to_csv`) are not modelled, so those writes always succeed.
- The boolean that `create_empty_csv` returns. It is ignored by its caller.
- All `print` logging and `datetime.now()` timestamps.
- Concurrency: the code has no locking, and calls are modelled as sequential.
- `Alert.Upper`: Python's `str.upper()` also maps non-ASCII letters (and can lengthen strings,
  as with 'ß'); the model upper-cases ASCII letters only.
- `Alert.Normalize`: `abs_qty` is modelled as an integer. Strings and floats passed through
  `int()`, and JSON `null` values, are not modelled.
