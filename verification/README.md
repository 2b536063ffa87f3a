# Climate risk rating: query layer model

A Dafny model of the in-memory query layer of a small climate-risk dashboard. The
dashboard shows a dataset of risk-assessed assets in two views.

- **The table** (`src/components/dataTable.tsx`) has a fixed set of columns and a
  year filter. A risk-factor search is applied to the year filter's result. It keeps
  a row only when the search text is one of the keys of the JSON object in the row's
  `Risk Factors` text.
- **The line chart** (`src/components/lineGraph.tsx`) picks one entity's records. It
  tries a (latitude, longitude) pair first, then an asset name, then a business
  category. It sorts those records by integer year and projects them into four aligned
  sequences: year labels, risk ratings, risk-factor texts and asset names.

Both views are pure transformations of sequences of records. Here they are pure Dafny
functions with lemmas relating them to independent definitions.

Files and modules:

| file | module | contents |
|---|---|---|
| `maybe.dfy` | `Maybe` | `Option` for absent props and failed decodes, and `Result` for a computation that throws |
| `seqs.dfy` | `Seqs` | order-preserving `Filter`, the subsequence relation, and lemmas on fusing, agreeing predicates, appending and counting |
| `stable_sort.dfy` | `StableSort` | a stable insertion sort by an integer key; proof that it is sorted, a permutation and stable, and that a stable sort is unique |
| `data_item.dfy` | `DataItems` | the `DataItem` record, with every field kept as text |
| `data_table.dfy` | `DataTable` | the columns and their sort flags, the year filter, the tag filter and the composed pipeline |
| `line_graph.dfy` | `LineGraph` | the props, the selector precedence, the year sort, the projection and the early returns |

Two library calls are passed to the model as function parameters, not modelled in
detail:

- `keysOf: string -> Option<set<string>>` stands for `Object.keys(JSON.parse(text))`.
  `None` means that call throws. That happens for text that is not JSON, and also for
  `null`, whose keys cannot be taken.
- `parseYear: string -> int` stands for `parseInt` applied to the `Year` text.

The `Year` field stays a string. The year filter compares it with `===`, and the chart
labels show the text itself.

Points where the code's behaviour is easy to misread:

- When the selector matches nothing, the code returns early (src/components/lineGraph.tsx:35)
  and leaves the chart as it was. `ExtractSeries` returns `None` then, and also when the
  data is empty (src/components/lineGraph.tsx:22).
- The year filter treats an empty `selectedYear` like an absent one, because the check
  is on JavaScript truthiness. So do empty `lat`, `long`, `assetName` and
  `businessCategory` props in the chart.
- The tag search matches a key exactly. It does not match a substring of a key or a
  value.
- A `Year` that does not parse is not reported, because `parseInt` returns `NaN`
  (see "Left out").

## Model

| member | source | states |
|---|---|---|
| `Seqs.Filter` | src/components/dataTable.tsx:54 | the result is no longer than the input; it holds exactly the input's elements that satisfy the callback (every result element is an input element that passes, and every passing input element is kept); no element occurs more often than in the input |
| `DataTable.SortableColumns` | src/components/dataTable.tsx:14-49 | the headers of the sortable columns are exactly Asset Name, Business Category, Risk Rating, Risk Factors and Year |
| `DataTable.OnlyCoordinatesUnsortable` | src/components/dataTable.tsx:37-46 | a column has sorting disabled iff its accessor is `Lat` or `Long` |
| `DataTable.ColumnsShowItemFields` | src/components/dataTable.tsx:14-46 | a row shows the item's seven fields in column order, and the Risk Factors cell is the raw, undecoded JSON text |
| `DataTable.FilterByYear` | src/components/dataTable.tsx:51-57 | with no year selected (absent, empty or "All") the input is returned unchanged; otherwise every kept item is an input item of the selected year, and every input item of that year is kept; the result is never longer than the input |
| `DataTable.FilterByYearIsFilter` | src/components/dataTable.tsx:52-55 | the year filter equals the order-preserving filter by the predicate "no year selected, or Year equals the selected year" |
| `DataTable.FilterByYearSubsequence` | src/components/dataTable.tsx:52-54 | the result is a subsequence of the input (order kept); each admitted item keeps all its occurrences and each other item has none |
| `DataTable.FilterByYearIdempotent` | src/components/dataTable.tsx:53-54 | filtering twice by the same year gives the same as filtering once |
| `DataTable.KeepTagged` | src/components/dataTable.tsx:62-65 | succeeds iff every text decodes; on failure it reports the first position whose text does not decode, with that text; on success it keeps exactly the items whose decoded keys contain the search |
| `DataTable.FilterByTag` | src/components/dataTable.tsx:59-68 | an empty search returns the input unchanged, even when texts do not decode; with a search it fails iff some text does not decode, reporting the first one, and otherwise keeps exactly the items that have the search as a key |
| `DataTable.KeepTaggedIsFilter` | src/components/dataTable.tsx:62-64 | when every text decodes, the tag filter equals the order-preserving filter by "the search is one of the decoded keys" |
| `DataTable.FilterByTagIsFilter` | src/components/dataTable.tsx:60-65 | a successful tag filter with a search returns a subsequence of its input: exactly the tagged items, in their original order |
| `DataTable.TableData` | src/components/dataTable.tsx:51-68 | the year-then-tag pipeline fails iff there is a search and some item of the selected year does not decode; otherwise it returns exactly the items passing both filters, in input order |
| `DataTable.FiltersCommute` | src/components/dataTable.tsx:51-68 | when the tag filter succeeds on the whole data, year-then-tag equals tag-then-year |
| `DataTable.YearFirstSkipsOtherYears` | src/components/dataTable.tsx:51-68 | the converse does not hold: suppose an item of another year whose text does not decode comes before a tagged item of the selected year; then year-then-tag returns the tagged item, while the tag filter alone fails at position 0 |
| `DataTable.YearFilterHidesDecodeErrors` | src/components/dataTable.tsx:51-68 | a concrete instance: the 2020 record with text "not json" is dropped for year 2021, so searching "fire" succeeds with the 2021 record; searching the full data fails on "not json" |
| `DataTable.TableExamples` | src/components/dataTable.tsx:51-68 | for two records of Asset A, 2020 with key "flood" and 2021 with keys "flood" and "fire": searching "fire" keeps only the 2021 record; year "2099" gives the empty sequence; a "not json" text gives a decode error at its position |
| `LineGraph.SelectorOf` | src/components/lineGraph.tsx:25-32 | a location selector is chosen iff both lat and long are truthy; otherwise an asset-name selector iff the asset name is truthy; otherwise a category selector iff the category is truthy; otherwise none; the chosen selector carries the props' own text |
| `LineGraph.Selects` | src/components/lineGraph.tsx:24-33 | with both lat and long, an item matches iff its Lat and Long are equal to them; else with an asset name, iff its name is equal; else with a category, iff its category is equal; else nothing matches |
| `LineGraph.SelectorIgnoresLowerFields` | src/components/lineGraph.tsx:25-30 | a full location makes name and category irrelevant; an asset name makes the category irrelevant; a lat without a long is ignored entirely |
| `StableSort.Insert` | src/components/lineGraph.tsx:37 | inserting into a sorted sequence gives a sorted sequence one element longer, whose head is either `x` or the old head |
| `StableSort.InsertPermutes` | src/components/lineGraph.tsx:37 | inserting adds `x` and keeps every other element: the multiset grows by exactly `x` |
| `StableSort.SortBy` | src/components/lineGraph.tsx:37 | the result is non-decreasing in the key and is a permutation of the input |
| `StableSort.SortByIsStable` | src/components/lineGraph.tsx:37 | for every key value, the items with that key appear in the result in their input order (stability of `Array.prototype.sort`) |
| `StableSort.StableSortUnique` | src/components/lineGraph.tsx:37 | two sequences that are sorted and list each key's items in the same order are equal, so a stable sort's output is determined by its input |
| `StableSort.SortByIsTheStableSort` | src/components/lineGraph.tsx:37 | any stable sort of the input by the key equals the insertion sort's result |
| `StableSort.SortByIdempotent` | src/components/lineGraph.tsx:37 | a consequence of `StableSortUnique`: the sorted result is already the stable sort of itself, so sorting it again changes nothing |
| `LineGraph.Project` | src/components/lineGraph.tsx:38-41 | the four sequences all have the sorted sequence's length, and point i of each comes from the i-th sorted item |
| `LineGraph.ExtractSeries` | src/components/lineGraph.tsx:21-41 | there is no series (early return) iff no item of the data matches the selector, which covers empty data; a series has one point per matched item, at least one, and its labels are non-decreasing in parsed year |
| `LineGraph.ExtractSeriesIsStableSortOfSelection` | src/components/lineGraph.tsx:24-41 | for any stable sort by year of the matched items, the series is its projection, or there is no series when it is empty |
| `LineGraph.SeriesShowsOnlySelectedItems` | src/components/lineGraph.tsx:24-41 | every point of the series shows the year, rating, risk factors and name of a data item that matches the selector |
| `LineGraph.SeriesDrawsEverySelectedItem` | src/components/lineGraph.tsx:24-41 | the series is the projection of a permutation of the matched items, so each matched item is drawn as often as it occurs |
| `LineGraph.SeriesExample` | src/components/lineGraph.tsx:24-41 | Asset A's 2021 and 2020 records, given in that order, are drawn as labels 2020 and 2021 with ratings 3.5 and 4.0 |

## Left out

- The actual row sorting done by `react-table`'s `useSortBy` (src/components/dataTable.tsx:70-76) is not modelled. It is library code. Only the per-column sort flags are visible, and they are modelled. The library's rule that an accessor column is sortable unless `disableSortBy` is set is assumed.
- React state, hooks, memoisation and JSX rendering are not modelled. This covers the search input, the table markup and the canvas element. The component's inputs become explicit function parameters.
- `loadData()` is not modelled: it is asynchronous I/O in a module that is not part of this model. The data is a parameter.
- The `!canvasRef.current` half of the guard at src/components/lineGraph.tsx:22 is not modelled; it is rendering state. Only the `!data.length` half is.
- Chart.js is not modelled: building the chart, updating it in place, the missing-context return and the tooltip callbacks. `ExtractSeries` returns the four arrays that the chart would receive.
- `parseFloat` of the risk rating is not modelled: it is floating point. Ratings are carried through as their text, aligned with the labels.
- `parseInt` is an abstract total function `parseYear: string -> int`. A `NaN` year is not modelled, and neither is the comparator subtraction's floating-point rounding. With a `NaN` comparison the engine's sort order is implementation-defined.
- `JSON.parse` and `Object.keys` are the abstract `keysOf` decoder. The JSON grammar is not modelled. Only key presence matters.
- The "never mutates its input" promise needs no statement: Dafny sequences are immutable values, and the copy made at src/components/dataTable.tsx:52 is the same value.
