# dex-dashboard core, modelled in Dafny

The dashboard fetches a list of liquidity pools from a DEX data API. It turns the list into a
table and ranks the pools by their one-hour price change. The program also defines a function
that totals the last hour's buy and sell transactions of a table, though no page calls it. This
project models the data-shaping core of that program and proves what it does:

- `process_data` and its inner `flatten`: each pool's nested `attributes` dict becomes one flat
  row whose keys are the `_`-joined key paths. The rows become a DataFrame.
- `get_top_changes`: it coerces one column to float in the caller's DataFrame, sorts
  descending, takes the first three rows and keeps four columns.
- The buy and sell sums of `plot_transaction_types`, a chart function the pages do not call.
- `parse_crypto_pools`: one eleven-field record per pool, read from fixed paths, with the two
  price changes decoded by `json.loads`.

Modules, one per file:

- `Results` has `Option`, `Result` and the Python exceptions the code can raise.
- `PyDict` has Python dicts as insertion-ordered pair lists. `dict(items)` keeps a repeated key
  at its first position and gives it the later value.
- `Json` has parsed JSON values, subscripting (`KeyError`, `TypeError`) and `for x in v`.
- `Frame` has the part of a pandas DataFrame that is used: columns, rows, NaN cells, and
  `pd.DataFrame(records)`. The `DataFrame` class is the mutable object callers share.
- `Flattener` has `flatten` as a loop (a `method`) and as its specification function. It also
  has a reference definition by leaves and paths, and `process_data`.
- `Ranking` has `get_top_changes`, with the sort as an insertion sort on row positions.
- `Totals` has the buy/sell sums.
- `Pools` has `parse_crypto_pools`, with the pool loop as a `method`.

Python's `float()` on strings and `json.loads` on strings are outside the model. They are passed
in as partial functions (`parseFloat`, `decode`) that either give a value or fail.

A missing percentage change does not rank as 0.0. `astype(float)` turns None into NaN, and a
descending `sort_values` puts NaN after every number, so a missing change ranks last.
`Ranking.MissingRanksLast` proves this: a missing value ranks below -2.5.

## Model

| member | source | states |
|---|---|---|
| `Flattener.FlattenDict` | streamlit_app.py:44-52 | The loop's result is the specification function `Flatten`: after each round, `items` holds the entries of the members visited so far. A nested dict is flattened recursively under the new key. |
| `Flattener.FlattenIsDictOfLeaves` | streamlit_app.py:44-52 | `flatten(d)` equals `dict` of the (flat key of path, value) pairs of all non-dict leaves, in traversal order. The nested `dict(...).items()` calls do not change the result. |
| `Flattener.FlattenGet` | streamlit_app.py:49-52 | When two paths flatten to the same key, the value kept is that of the later leaf. |
| `Flattener.FlattenWithoutCollisions` | streamlit_app.py:44-52 | Without key collisions the flat dict is exactly the keyed leaves, one entry per leaf. |
| `Flattener.FlattenHasNoDictValues` | streamlit_app.py:48-51 | No value of the flat dict is a dict. |
| `Flattener.FlattenHasEveryLeaf` | streamlit_app.py:46-51 | Every non-dict value reached by a key path has an entry under that path's flat key. With no collisions, the entry holds that value. |
| `Flattener.FlattenKeysAreLeafPaths` | streamlit_app.py:46-51 | Every key of the flat dict is the flat key of a path to a non-dict value, in a dict whose keys are distinct. |
| `Flattener.PathKeyIsJoin` | streamlit_app.py:47 | A path's flat key is its keys joined with `_`, after dropping the leading empty keys: under an empty parent key a child key gets no prefix. |
| `Flattener.PathKeyEmpty` | streamlit_app.py:47 | A flat key is empty exactly when every key on its path is empty. |
| `Flattener.PathKeyOfNonEmptyKeys` | streamlit_app.py:47 | With no empty key on the path, the flat key is the plain `_`-join of the path. |
| `Flattener.EmptyDictContributesNothing` | streamlit_app.py:48-49 | A member whose value is an empty dict adds no entry: removing it leaves the result unchanged. |
| `Flattener.FlattenPools` | streamlit_app.py:55 | The comprehension succeeds exactly when every pool has dict `attributes`. It then gives one flattened dict per pool, in order. Otherwise it fails with the first failing pool's error. |
| `Flattener.ProcessData` | streamlit_app.py:43-56 | It succeeds exactly when `data['data']` can be iterated and every pool flattens. It gives one row per pool, in order. The columns are the union of the flat keys. A cell holds the row's flat value, or NaN where that row lacks the key. |
| `PyDict.FromItemsGet` | streamlit_app.py:52 | `dict(items)[k]` is the value of the last pair with key `k`. |
| `PyDict.PutAllFromItems` | streamlit_app.py:49 | Extending with `dict(list).items()` stores the same entries as extending with the list itself. |
| `PyDict.FromItemsOfDistinct` | streamlit_app.py:52 | Without repeated keys, `dict(items)` keeps every pair in order. |
| `Frame.FromRecords` | streamlit_app.py:56 | `pd.DataFrame(records)` has one row per record and a column for every key of any record. A cell holds the record's value, or NaN where the record lacks the key. |
| `Ranking.ToFloat` | streamlit_app.py:61 | `float()` of one cell. Numbers and NaN are kept, None becomes NaN and a bool becomes 1/0. A string becomes its parsed value, or `ValueError`. A list gives `ValueError`, as numpy's cast of an object column reports a sequence, and a dict gives `TypeError`. |
| `Ranking.CoerceColumn` | streamlit_app.py:61 | `KeyError` when the column is missing. Otherwise it fails exactly when some cell cannot be converted. On success the column holds the converted floats and every other cell is unchanged. |
| `Ranking.RankOrder` | streamlit_app.py:63 | The descending sort. The result is a permutation of the row positions (distinct, in range, covering every position), and the key of each position ranks before the keys after it, NaN last. |
| `Ranking.InsertAt` | streamlit_app.py:63 | Inserting a position where its key belongs keeps a sorted permutation sorted. |
| `Ranking.GetTopChanges` | streamlit_app.py:59-65 | The coerced column is written into the caller's frame. A failed coercion leaves the frame unchanged and raises. A missing projected column raises `KeyError` after the write. Otherwise the result has `min(3, n)` distinct input rows, with those rows' cells in the four projected columns. It is sorted non-increasing, and each selected row ranks before every row that was left out. |
| `Ranking.TopOfOrder` | streamlit_app.py:63-65 | The first three rows of a descending order, cut to the projected columns, meet the promise above. |
| `Ranking.TopChangesExample` | streamlit_app.py:63 | Pools with changes 5.0 and -2.5 come out in that order. |
| `Ranking.MissingRanksLast` | streamlit_app.py:61-63 | A missing change (NaN) ranks after -2.5. |
| `Totals.Amount` | streamlit_app.py:70-71 | What one cell adds to `.sum()`: a number adds itself, a bool 1/0, and NaN or None nothing. A string, list or dict gives `TypeError`. |
| `Totals.Sum` | streamlit_app.py:70-71 | A column sums exactly when every cell has an amount. |
| `Totals.SumAppend` | streamlit_app.py:70-71 | The sum of a concatenation is the sum of the sums. |
| `Totals.SumSkipsMissing` | streamlit_app.py:70-71 | A NaN cell leaves the sum unchanged. |
| `Totals.SumOfNumbers` | streamlit_app.py:70-71 | Cells holding numbers sum to the arithmetic total of those numbers. |
| `Totals.ColumnSum` | streamlit_app.py:70-71 | `trans_types[key]` raises `KeyError` when no window holds `key`; otherwise the result is the column's sum. |
| `Totals.FieldSumIndependent` | streamlit_app.py:70-71 | The total of one count depends only on that count's cells in the windows. |
| `Totals.Windows` | streamlit_app.py:69 | `df['transactions']` raises `KeyError` on a frame without that column, and a cell that is not a dict gives `TypeError`. When every cell is a dict, the call succeeds exactly when some dict holds `h1`, and otherwise raises `AttributeError`. On success there is one cell per row: that row's `h1` value, or NaN where its dict has no `h1`. Other windows are ignored. |
| `Totals.TransactionTotals` | streamlit_app.py:69-71 | The buy total is the sum of the `buys` cells of the `h1` windows, and the sell total the sum of the `sells` cells. Each is computed from its own cells. A failure of the windows is raised as is; when both sums fail, the buy sum's error is raised. |
| `Totals.TotalsOfCounts` | streamlit_app.py:69-71 | When every row's `transactions` dict has an `h1` dict recording `buys[i]` and `sells[i]`, the result is the pair of the two arithmetic totals. The dict may hold other windows, and the window other counts. |
| `Totals.TotalsIndependent` | streamlit_app.py:70-71 | The buy and sell totals are independent: tables whose windows agree on the buy counts have equal buy totals, and likewise for sells. |
| `Totals.TotalsExample` | streamlit_app.py:69-71 | Buys 3 and 5 with sells 1 and 0 give the totals (8, 1). |
| `Pools.AsDict` | utils.py:13-25 | The record's keys are the eleven keys of the literal, in order. |
| `Pools.RecordHasElevenKeys` | utils.py:13-25 | Every record has exactly eleven distinct keys, and a key is present exactly when it is one of the literal's. |
| `Pools.GetOrNone` | utils.py:17-18 | `.get(key)` gives None for a missing key and the stored value otherwise. Only a dict has `.get`. |
| `Pools.Loads` | utils.py:21-22 | `json.loads` of a string is its decoding, or `JSONDecodeError` for text that is not JSON. A non-string gives `TypeError`. |
| `Pools.Identity` | utils.py:14-16 | The first three entries succeed exactly when their paths resolve, and they hold the values at those paths. |
| `Pools.Volumes` | utils.py:19-20 | The volume entries succeed exactly when both paths resolve, and are copied unchanged. |
| `Pools.Prices` | utils.py:21-22 | The price entries succeed exactly when both strings exist and decode, and they are the decodings. |
| `Pools.Counts` | utils.py:23-24 | The transaction entries succeed exactly when both paths resolve, and are copied unchanged. |
| `Pools.FromAttributesSpec` | utils.py:13-25 | A record exists exactly when all nine required paths resolve and both price strings decode. Fields hold the values at their paths, a missing `fdv_usd` or `market_cap_usd` gives None, and the prices are decoded. |
| `Pools.ExtractPoolSpec` | utils.py:13-25 | The same for a pool: without `attributes` the error is that of `pool['attributes']`. Otherwise a record exists exactly when the attributes yield one. All eleven fields then hold the values at their full paths from the pool: a missing `fdv_usd` or `market_cap_usd` gives None, and the prices are the decodings of the strings at their paths. |
| `Pools.ParseCryptoPools` | utils.py:3-28 | A failure of `data['data']` or of its iteration is raised as is. Otherwise the call succeeds exactly when every pool's record can be built. It then returns one record per pool, in order. On failure it raises the first failing pool's error, and no partial list is returned. |

## Left out

- `fetch_data`, the Streamlit pages, the sidebar, the image reachability check and all plotting.
  These are network, cache and UI work with no effect on the computed values.
- Floating point: numbers are exact reals. Python's `float()` on strings and `json.loads` are
  abstract partial functions, so strings such as `"nan"` or `"inf"` are whatever the supplied
  parser makes of them. The int/float distinction of JSON numbers is not kept.
- Ranking.RankOrder: the order among rows with equal keys is left open. pandas' default sort is
  not stable, and no tie order is promised. For the same reason, "ranking the top three again
  gives the same sequence" holds only up to ties and is not stated.
- Ranking.GetTopChanges: a projection that names the same column twice, when `column_name` is
  one of the other three, is modelled as a repeated column. Only the first missing column is
  reported in the `KeyError`, while pandas lists all of them.
- Totals.Windows: a `transactions` cell that is not a dict, such as NaN for a pool without the
  key, is modelled as `TypeError`. pandas may instead build a frame from mixed cells.
- Totals.Amount: a column of only strings, or only lists, is concatenated by pandas rather than
  rejected. The model treats every string, list or dict cell as a `TypeError`.
- Pools.ParseCryptoPools: the payload is an immutable value in the model, so "the input is not
  modified" holds by construction and is not a separate statement.
- The tables that `process_data` builds have their `transactions` counts flattened into
  `transactions_h1_buys` and similar, so they hold no `transactions` column unless a pool stores
  a non-dict there. The totals are modelled on their own input table, as the function is
  written.
