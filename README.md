# investpy indices catalog, in Dafny

This project models `investpy/indices.py`, the part of investpy that builds and queries
the catalog of stock-market indices scraped from Investing.com.

- `retrieve_indices` builds the catalog in three passes:
  - pass 1 walks the per-country world listings;
  - pass 2 walks the global listings of each country id;
  - pass 3 walks the unfiltered global listing, where a row's country is the region of its last flag.
- For every row link that points to `/indices/…`, `retrieve_indices` asks
  `retrieve_index_info` for the index's symbol and currency.
- The accumulated records are then de-duplicated by tag (first one kept) and sorted by country.
- `retrieve_index_countries` and `retrieve_global_indices_countries` turn the country selector
  of a listing page into the country lists that the passes walk.
- `index_countries_as_list`, `indices_as_df`, `indices_as_list` and `indices_as_dict` query
  the stored catalog.

## How the model is built

Python behaviour is modelled explicitly where the code relies on it:
- `str.strip` uses Python's whitespace set.
- `str.replace` replaces every occurrence, left to right, without overlap.
- `in` on strings is substring search.
- String order is by code point.
- The `$` of `re.search` also matches before one final newline.

The environment is a parameter:
- Every HTTP answer is a status code plus the part of the page the code reads: table rows
  (id, anchors, flag titles), heading texts, span texts, selector options.
- The bundled CSV files are given as values.
- `unidecode(lower(.))` is a parameter `fold`.

Raised exceptions become `Err` values that carry the source's error code or HTTP status.

Module layout, one file each:

| module | file | what it models |
|---|---|---|
| `Outcome` | outcome.dfy | `Option`, the raised errors, `Result`, and the sequencing of appending loops |
| `Text` | text.dfy | the Python string operations the code uses |
| `Detail` | detail.dfy | `retrieve_index_info` |
| `Records` | records.dfy | catalog rows, listing rows, and the field cleanups |
| `Countries` | countries.dfy | `retrieve_index_countries`, `retrieve_global_indices_countries` |
| `Builder` | builder.dfy | `retrieve_indices`: its three passes and its loops |
| `Finalisation` | finalisation.dfy | `drop_duplicates(subset="tag")` and `sort_values('country')` |
| `Queries` | queries.dfy | the four query functions |

Each scraping loop is a `method` with a `while` or `for` loop. Each is proved equal to a
recursive specification function, for example `ScanPage` against `PageRecords`. The
properties are then proved about those functions.

## Model

| member | source | states |
|---|---|---|
| Text.Strip | investpy/indices.py:114-115 | `strip()` removes exactly a leading and a trailing run of whitespace: the result is a middle slice of the input with only whitespace around it, and it neither starts nor ends with whitespace |
| Text.RemovePrefix | investpy/indices.py:113 | deleting every `p` from `p + s`, where `s` does not contain `p`, leaves `s` |
| Text.ReplaceAllTrailing | investpy/indices.py:114 | deleting a trailing occurrence of a pattern that starts nowhere earlier leaves the text before it |
| Text.StrLeTotal | investpy/indices.py:323 | Python's string order compares every two strings |
| Text.StrLeTransitive | investpy/indices.py:323 | Python's string order is transitive |
| Text.AsciiLower | investpy/indices.py:741 | `lower()` on ASCII keeps the length, changes exactly the capital letters, and turns each capital into the small letter 32 code points further on |
| Detail.DeleteParens | investpy/indices.py:390 | removing both parentheses from a match `(t)`, where `t` is made of symbol characters, leaves `t` |
| Detail.SymbolOfSpec | investpy/indices.py:384-390 | the pattern yields the symbol `t` iff the text, minus one final newline, ends with `(t)` and `t` uses only letters, digits and `.-_=` |
| Detail.HeadingSymbolSpec | investpy/indices.py:383-390 | a heading yields `t` iff it is non-empty and its stripped text ends with `(t)` with `t` of symbol characters |
| Detail.LastSomeSpec | investpy/indices.py:382-397 | with overwriting loops, the value is missing iff no element gives one; otherwise it is the value of the last element that gives one |
| Detail.RetrieveIndexInfo | investpy/indices.py:369-399 | a non-200 status raises `ConnectionError`; otherwise symbol and currency are the last ones found, or missing |
| Records.IndexLinkTag | investpy/indices.py:110-113 | a link `/indices/<slug>`, where `slug` contains no `/indices/`, is an index link and its tag is `<slug>` |
| Records.PairId | investpy/indices.py:107 | a row id `pair_<n>`, where `n` contains no `pair_`, gives the id `n` |
| Records.CfdTitle | investpy/indices.py:114 | a title `<base> (CFD)` gives the full name `strip(<base>)` whenever no occurrence of ` (CFD)` starts inside `base` (so `DAX (EUR) (CFD)` gives `DAX (EUR)`) |
| Builder.AnchorsFail | investpy/indices.py:109-117 | a row's links raise exactly when one of its index links has a detail page that raises |
| Builder.AnchorsDescribe | investpy/indices.py:109-131 | otherwise the row appends one record per index link, in link order, each with that link's tag, name and full name, the row id, the detail page's symbol and currency, and the pass's class and market |
| Builder.RowYields | investpy/indices.py:271-310 | all records of a row share its id, its class and its country; in pass 3 that country is the region of the row's last flag, and a flagless row cannot succeed |
| Builder.ListingsYield | investpy/indices.py:66-131 | every record a pass appends comes from one of its listings and one of its filters |
| Builder.WorldPass | investpy/indices.py:66-131 | pass 1 records are `world_indices`, of a world class, with the country of a listed country, `uk` and `usa` expanded |
| Builder.GlobalPass | investpy/indices.py:146-216 | pass 2 records are `global_indices`, of a global class, with the country of a listed global entry |
| Builder.RegionPass | investpy/indices.py:251-310 | pass 3 records are `global_indices`, of a region class, and their country is the region of the last flag of some row of the pass-3 page of their class |
| Builder.RawResultsOrigin | investpy/indices.py:57-313 | a successful run needs the countries file, and every accumulated record comes from one of the three passes: `world_indices` of a world filter with a listed country renamed, `global_indices` of a global filter with the country of a listed entry, or `global_indices` of a region filter with the region of the last flag of a row of the pass-3 page of its class |
| Builder.CountryFiltersIgnoreTestMode | investpy/indices.py:86-131 | test mode does not change the filter loop of pass 1 |
| Builder.WorldTestModePrefix | investpy/indices.py:133-134 | pass 1 in test mode succeeds whenever the full pass does, and appends a prefix of its records |
| Builder.LastFlag | investpy/indices.py:276-279 | the region title is missing iff the row has no flag; otherwise it is the last flag's title |
| Builder.ScanAnchors | investpy/indices.py:109-131 | the link loop appends what the specification of a row's links gives, or stops at the first error |
| Builder.ScanRow | investpy/indices.py:271-310 | one row: its region (pass 3), then its links |
| Builder.ScanPage | investpy/indices.py:184-219 | a listing page: a non-200 status raises; otherwise its rows in order, stopping after the first row in test mode in pass 2 |
| Builder.ScanFilters | investpy/indices.py:251-313 | the filter loop of one listing; in pass 3, test mode stops after the first filter whose page has rows |
| Builder.ScanListings | investpy/indices.py:146-222 | the listing loop of passes 1 and 2; test mode stops after the first listing |
| Builder.RetrieveIndices | investpy/indices.py:54-329 | the first error of the three passes is the result; otherwise the finalised table, whose tags are distinct, whose countries are in order and whose tags are those accumulated |
| Finalisation.DedupByTag | investpy/indices.py:322 | keeping the first row of each tag gives distinct tags, the same set of tags, and, for every tag, its first row |
| Finalisation.SortByCountry | investpy/indices.py:323 | sorting by country gives a table in ascending country order that is a permutation of its input |
| Finalisation.InsertDistinct | investpy/indices.py:323 | inserting a row keeps the tag set plus its tag, and keeps tags distinct when its tag is new |
| Finalisation.SortDistinct | investpy/indices.py:322-323 | sorting keeps the tag set and keeps tags distinct |
| Finalisation.SortedAllPairs | investpy/indices.py:323 | in a sorted table every earlier row's country is at most every later row's |
| Finalisation.Finalise | investpy/indices.py:319-324 | the final table has distinct tags and the tag set of the raw results; each row is the first raw row of its tag; countries ascend; it is a permutation of the de-duplicated rows |
| Finalisation.DropDuplicateTags | investpy/indices.py:322 | the loop with a set of seen tags computes the de-duplication |
| Finalisation.FinaliseTable | investpy/indices.py:319-324 | de-duplication followed by sorting computes the final table |
| Countries.CollectSpec | investpy/indices.py:446-453 | an entry is listed iff some option other than the default gives it; nothing is listed iff every option is the default |
| Countries.CollectPrefix | investpy/indices.py:516-526 | scanning part of the options lists a prefix of the entries |
| Countries.CountrySlugOf | investpy/indices.py:449 | an option `/indices/<s>-indices`, where `s` has no `/` and no `-indices` starts inside `s`, gives the country `s`, dashes as spaces, stripped |
| Countries.GlobalIdOf | investpy/indices.py:519 | an option `/indices/global-indices?c_id=<n>`, where `n` contains no `/indices/global-indices?c_id=`, gives the id `n` |
| Countries.CollectEntries | investpy/indices.py:516-526 | the option loop lists the entries of every non-default option, or only the first of them when it may stop early |
| Countries.RetrieveIndexCountries | investpy/indices.py:436-467 | a non-200 status raises `ConnectionError`; no entry raises `RuntimeError` ERR#0035; otherwise the entries |
| Countries.RetrieveGlobalIndicesCountries | investpy/indices.py:506-540 | as above for the global selector, the first entry only in test mode |
| Countries.IndexCountriesSpec | investpy/indices.py:446-456 | the call raises ERR#0035 iff every option is the default; otherwise an entry is listed iff a non-default option gives it |
| Countries.GlobalCountriesSpec | investpy/indices.py:516-529 | the same for the global selector |
| Countries.GlobalTestMode | investpy/indices.py:525-526 | test mode fails exactly when, and how, the full call fails; otherwise it keeps only the first entry of the full list |
| Queries.UniqueSpec | investpy/indices.py:568 | `unique()` lists each value exactly once, in the order of first appearance |
| Queries.ListedCountry | investpy/indices.py:558-568 | a country is listed iff some catalog row carries it |
| Queries.RowsOfSpec | investpy/indices.py:617 | filtering by country keeps exactly the rows of that country |
| Queries.RowsOfAppend | investpy/indices.py:617 | filtering distributes over concatenation, so the filter keeps catalog order |
| Queries.IndicesAsDfSpec | investpy/indices.py:598-619 | for a country, the answer is `None` iff no row has the folded country; otherwise exactly those rows, in order, without tag and id |
| Queries.ListAgreesWithDf | investpy/indices.py:647-665 | `indices_as_list` fails, answers `None` or answers names exactly as `indices_as_df` does, name by name |
| Queries.DictArguments | investpy/indices.py:706-732 | `indices_as_dict` raises iff an argument is invalid; ERR#0025 iff `country` is neither `None` nor a `str`, ERR#0002 iff that passes and `as_json` is not a `bool`, ERR#0020 iff both pass and `columns` is neither `None` nor a list, ERR#0023 iff all three pass and some listed column is unknown; the corrected version raises the same errors |
| Queries.ExportRoundTrip | investpy/indices.py:722-737 | exporting every column gives one record per row, each with exactly the seven columns, and each record reads back (`ViewOf`) as its row without `tag` and `id`; JSON iff asked |
| Queries.ExportProjection | investpy/indices.py:729-737 | asking for a subset of the columns gives, row by row, the full record restricted to those columns |
| Queries.RawCountryTest | investpy/indices.py:739-743 | as written, with valid arguments a country answers `None` unless some row carries it exactly as given, and otherwise exports the requested columns of the rows of the folded country |
| Queries.RawCountryMissed | investpy/indices.py:739-743 | as written, `"Germany"` finds no rows although `indices_as_df("Germany")` does |
| Queries.FoldedAgreesWithDf | investpy/indices.py:739-743 | with the folded test, `indices_as_dict` finds a country iff `indices_as_df` does, exports one record per row it returns, each record holding every requested column with that row's value, and every exported country is the folded one |

## Left out

- HTTP requests, User-Agent headers and lxml/XPath parsing are not modelled. A page is the status code plus the elements the XPath expressions select, in document order.
- Reading and writing the CSV resources (`pkg_resources`, `read_csv`, `to_csv`) is not modelled. A file is a value; an absent index-countries file is `None`.
- `ValueError` ERR#0041 for a non-bool `test_mode` is not modelled, because `testMode` is a `bool`.
- `unidecode` and `str.lower` are the parameter `fold`. `Text.AsciiLower` instantiates it for the counterexample only.
- A missing `id`, `title` or text attribute is not modelled: the Python code would fail on `None` there, and the model treats them as strings. A missing `href` is modelled.
- A missing `value` attribute of a country `<option>` is not modelled: `None` passes the `!=` test at indices.py:447 and :517 and then `None.replace` raises `AttributeError` at :449 and :519. `Countries.SelectOption.value` is a string.
- The fallback at indices.py:138-141 is not modelled; here the global country list is given. When `global_indices_countries.csv` is missing, the code calls `retrieve_index_countries(test_mode=False)`, the world lister, whose rows have no `id` column, so pass 2 would raise `KeyError` at `row['id']` (:180). The check `countries is None` at :143-144 cannot fail on either branch, since both `read_csv` and `retrieve_index_countries` return a frame or raise.
- `IOError` ERR#0037 is not modelled, because `read_csv` never returns `None`.
- The queries' call to `retrieve_indices` when `indices.csv` is absent (:606, :655, :717) is not modelled; the queries take the catalog as given.
- `df.where(pd.notnull(df), None)` and pandas NaN are not modelled. Missing symbol and currency are `None`, and an exported missing cell is `Missing`.
- `json.dumps` is a marker (`Json`) around the records rather than the serialised text.
- Dictionary key order is not modelled: a record is a `map`.
- Repeated names in `columns` are not modelled: a record is a `map`, so they collapse.
- Finalisation.SortByCountry: a reference insertion sort on sequences, not pandas' in-place quicksort. Its order among rows with equal countries is stable, and pandas' is unspecified.
- Finalisation.Finalise: with no results at all, pandas raises a `KeyError` on the missing `tag` column. The model returns an empty table.
- `index_countries_as_list` on a catalog with no rows returns an empty list, as the code does, not an error.
- Builder.RowYields: a pass-3 row without a flag is `Err(AttributeError)`, the `None.strip()` failure at :286. The model does not capture the crash's message.
- Concurrency and timing are not modelled.

## Findings

| source | as written | input that shows it | evidently intended | confidence | as-written member | corrected member |
|---|---|---|---|---|---|---|
| investpy/indices.py:739 | `indices_as_dict` asks whether the raw `country` is a listed country, but selects rows by `unidecode(country.lower())` | a catalog with a row of country `"germany"`, `country="Germany"`, `fold` = lower case: `indices_as_df` returns the row, `indices_as_dict` returns `None` | test the folded country, as `indices_as_df` (:616) and `indices_as_list` (:664) do | not executed | Queries.RawCountryMissed | Queries.FoldedAgreesWithDf |
