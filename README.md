# NYC motor-vehicle collision aggregation, modelled in Dafny

This project models the data side of the knightd3-intermediate collision charts:

- The two Node scripts that turn the NYPD collision CSV into per-month JSON documents:
  - `module1/hw/data_cleanup/main.js`, the basic aggregator. It keeps deaths and injuries per month and borough.
  - `module4/hw/data_cleanup/main.js`, the geo-aware aggregator. It adds an incident count and a latitude/longitude density grid per month and borough.
- The data preparation of the collision map page, `module4/hw/main.js`. It merges the months' citywide density grids into one grid, then flattens that grid into a list of points with counts.

The model has one module per concern:

| file | module | what it holds |
|---|---|---|
| `counting.dfy` | `Counting` | String-keyed counters. `Sum` is the order-independent rollup. `AddCounts` is the pointwise addition, and `AddInto` is its key-by-key loop. |
| `density.dfy` | `Density` | The two-level `lat -> lng -> count` grid. `Bump` is one more incident at a position. `Merge` is the additive merge, and `MergeInto` is its nested loop. `Total` is the sum of a grid's counts. |
| `names.dfy` | `Names` | The borough-name `capitalize`: lower-case, split on `' '`, upper-case each word's first character, join with `' '`. |
| `records.dfy` | `Records` | A parsed row: the raw columns, the derived month label, the coordinate keys, and the killed and injured counts. |
| `month_order.dfy` | `MonthOrder` | The first-seen order of month labels. |
| `tally.dfy` | `Tally` | The basic aggregator. |
| `geo_tally.dfy` | `GeoTally` | The geo-aware aggregator. |
| `collision_map.dfy` | `CollisionMap` | The map page's cross-month merge and flatten. |

Each aggregator's row handler mutates two module-level variables, `months` and `order`. So each aggregator is a class `Aggregator` with those two fields:

- `ProcessRow` handles one row.
- `Consume` runs the row loop.
- `End` is the finalizer.

Each row method is proved equal to a pure `Step` function, and the loop to `Fold`, a fold of `Step` over the rows. The lemmas about `Step` and `Fold` carry the properties of the scripts:

- skipped rows change nothing;
- buckets hold exactly the sums of their rows;
- `order` is the first-seen order of the accepted months, without duplicates, and its elements are exactly the keys of `months`;
- `"Oct 2015"` never appears;
- every bucket's incident count equals the sum of its grid.

The finalizers are read-only methods. Each returns one document per month, in the reverse of the order in which the months were first seen. For every month, the document's per-borough totals and its citywide rollup are specified by the predicate `Describes`.

## Model

| member | source | states |
|---|---|---|
| `Names.CapitalizeChars` | module1/hw/data_cleanup/main.js:13-17 | `capitalize` keeps the length. A character is upper-cased when it is first or follows a space, and lower-cased otherwise. Empty words from repeated spaces survive. |
| `Names.CapitalizeIdempotent` | module1/hw/data_cleanup/main.js:13-17 | Capitalizing a capitalized name changes nothing. |
| `Names.CapitalizeIgnoresCase` | module1/hw/data_cleanup/main.js:31 | Lower-casing before `capitalize` changes nothing, so the call site's extra `toLowerCase` is redundant. |
| `Names.JoinSplit` | module1/hw/data_cleanup/main.js:14-16 | Joining the words of a split on `' '` with `' '` gives the original string back. |
| `Names.SplitWordsHaveNoSpace` | module1/hw/data_cleanup/main.js:14 | No word produced by the split contains a space. |
| `MonthOrder.Register` | module1/hw/data_cleanup/main.js:34-41 | Registering a month makes it listed, adds no other label, keeps the earlier order as a prefix, and keeps the list free of duplicates. |
| `MonthOrder.FirstSeenSpec` | module1/hw/data_cleanup/main.js:34-41 | The first-seen list of a label sequence has no duplicates and holds exactly the labels of the sequence. Its labels are ordered by their first occurrence. |
| `Tally.Step` | module1/hw/data_cleanup/main.js:25-28 | A row whose BOROUGH is absent or empty leaves `months` and `order` unchanged. |
| `Tally.StepBucket` | module1/hw/data_cleanup/main.js:44-53 | An accepted row adds its killed and injured counts to its own (month, borough) bucket, creating the bucket if it is missing. Every other bucket keeps its existence and its counts. |
| `Tally.StepMonths` | module1/hw/data_cleanup/main.js:34-56 | A month is appended to `order` exactly when an accepted row brings a month that is not yet a key of `months`. The keys grow by exactly that month. |
| `Tally.StepConsistent` | module1/hw/data_cleanup/main.js:34-41 | Every row keeps the invariant: `order` has no duplicates and its elements are exactly the keys of `months`. |
| `Tally.FoldCounts` | module1/hw/data_cleanup/main.js:19-61 | After any rows, a bucket's deaths and injuries are its earlier values plus the killed and injured sums over exactly the rows of that bucket. The bucket exists exactly when it existed before or some row belongs to it. |
| `Tally.RunCounts` | module1/hw/data_cleanup/main.js:44-53 | For a whole input, deaths and injuries of (m, b) are the sums over the accepted rows with month m and normalised borough b. The bucket exists exactly when such a row exists. |
| `Tally.RunOrder` | module1/hw/data_cleanup/main.js:34-41 | For a whole input, `order` is the first-seen list of the accepted rows' months, and the keys of `months` are exactly those months. |
| `Tally.RunConsistent` | module1/hw/data_cleanup/main.js:34-56 | For a whole input, `order` has no duplicates and lists exactly the keys of `months`. |
| `Tally.AttachTotals` | module1/hw/data_cleanup/main.js:74-78 | Every borough gets `total = injuries + deaths`, and no borough is added or lost. |
| `Tally.Rollup` | module1/hw/data_cleanup/main.js:80-92 | `all.deaths`, `all.injuries` and `all.total` are the sums of those fields over the month's boroughs. |
| `Tally.DescribesAll` | module1/hw/data_cleanup/main.js:80-92 | In an emitted document, `all.total == all.deaths + all.injuries`. |
| `Tally.Aggregator.constructor` | module1/hw/data_cleanup/main.js:10-11 | The aggregator starts with no months and an empty order, and the invariant holds. |
| `Tally.Aggregator.ProcessRow` | module1/hw/data_cleanup/main.js:25-58 | Handling a row changes the fields exactly as `Step` does and keeps the invariant. |
| `Tally.Aggregator.Consume` | module1/hw/data_cleanup/main.js:19-61 | Handling the rows in order changes the fields exactly as `Fold` does and keeps the invariant. |
| `Tally.Aggregator.End` | module1/hw/data_cleanup/main.js:63-95 | Document i is the document of `order[n-1-i]`, that is `order` reversed. It carries its label as `name`, per-borough totals and the citywide sums. |
| `GeoTally.AssertHasStringAttrs` | module4/hw/data_cleanup/main.js:19-33 | The check answers true exactly when every listed property is present with a non-zero length. |
| `GeoTally.RequiredColumnsCheck` | module4/hw/data_cleanup/main.js:41 | The check on BOROUGH, LONGITUDE and LATITUDE holds exactly when all three columns are non-empty strings. |
| `GeoTally.Step` | module4/hw/data_cleanup/main.js:41-55 | A row that lacks a required column, or whose month is `"Oct 2015"`, leaves `months` and `order` unchanged. |
| `GeoTally.StepBucket` | module4/hw/data_cleanup/main.js:68-88 | An accepted row adds its killed and injured counts to its own bucket, one to `incidents.count`, and one at its (lat, lng) cell (via `Density.Bump`), creating what is missing. Every other bucket is unchanged. |
| `GeoTally.StepMonths` | module4/hw/data_cleanup/main.js:58-65 | A month is appended to `order` exactly when an accepted row brings a month that is not yet a key, and the keys grow by that month. |
| `GeoTally.StepConsistent` | module4/hw/data_cleanup/main.js:73-88 | Every row keeps the invariant: `order` lists the keys once each, `"Oct 2015"` is not a key, and every bucket's `incidents.count` is the sum of its grid. |
| `GeoTally.FoldStats` | module4/hw/data_cleanup/main.js:35-96 | After any rows, a bucket holds its earlier deaths, injuries and count plus, from exactly its rows, the killed and injured sums and one incident per row. Its cell at (lat, lng) grew by the number of its rows at that position, and that position is a key pair exactly when it was before or such a row exists. |
| `GeoTally.RunOrder` | module4/hw/data_cleanup/main.js:58-65 | For a whole input, `order` is the first-seen list of the accepted months, and the keys of `months` are exactly those months. |
| `GeoTally.FoldConsistent` | module4/hw/data_cleanup/main.js:51-55 | The invariant survives any rows. In particular `"Oct 2015"` is never a key of `months` and never in `order`. |
| `GeoTally.RolledUpNone` | module4/hw/data_cleanup/main.js:139-147 | The initial accumulator of the rollup is the rollup of no borough. |
| `GeoTally.RolledUpInsert` | module4/hw/data_cleanup/main.js:115-138 | Adding one borough's sums and merging its grid into the accumulator gives the rollup of one more borough. |
| `GeoTally.Rollup` | module4/hw/data_cleanup/main.js:115-147 | `all.deaths`, `all.injuries`, `all.total` and `all.incidents.count` are borough sums. Each `all.incidents.map[lat][lng]` is the sum of the boroughs' counts there, with absent counting as 0. The latitudes and key pairs of the map are the union of the boroughs'. If every borough's count is the sum of its grid, so is the rollup's. |
| `GeoTally.AttachTotals` | module4/hw/data_cleanup/main.js:109-113 | Every borough gets `total = injuries + deaths` and keeps its statistics, and no borough is added or lost. |
| `GeoTally.MonthDocument` | module4/hw/data_cleanup/main.js:103-149 | A month's document carries the month's name, its boroughs with totals, and the rollup. |
| `GeoTally.DescribesAll` | module4/hw/data_cleanup/main.js:115-147 | In an emitted document, `all.total == all.deaths + all.injuries`. When the month's buckets keep the count invariant, `all.incidents.count` is the sum of the citywide grid. |
| `GeoTally.Aggregator.constructor` | module4/hw/data_cleanup/main.js:10-11 | The aggregator starts with no months and an empty order, and the invariant holds. |
| `GeoTally.Aggregator.ProcessRow` | module4/hw/data_cleanup/main.js:39-93 | Handling a row changes the fields exactly as `Step` does and keeps the invariant. |
| `GeoTally.Aggregator.Apply` | module4/hw/data_cleanup/main.js:41-91 | The in-place row update (required-column check, partial-month skip, bucket and cell increments) changes the fields exactly as `Step` does. |
| `GeoTally.Aggregator.Consume` | module4/hw/data_cleanup/main.js:35-96 | Handling the rows in order changes the fields exactly as `Fold` does and keeps the invariant. |
| `GeoTally.Aggregator.End` | module4/hw/data_cleanup/main.js:102-150 | Document i is the document of `order[n-1-i]`, with `name`, per-borough totals and the rollup. No document is named `"Oct 2015"`. |
| `Counting.AddInto` | module4/hw/data_cleanup/main.js:128-133 | Adding a longitude row into the accumulator key by key gives the pointwise sum, and missing keys start at 0. |
| `Counting.SumAdd` | module4/hw/data_cleanup/main.js:123-132 | Adding counters pointwise adds their sums, whatever the key order. |
| `Density.Bump` | module4/hw/data_cleanup/main.js:77-88 | One more incident at (lat, lng) raises that cell by one and adds that key pair. Every other cell is unchanged. |
| `Density.BumpTotal` | module4/hw/data_cleanup/main.js:86-88 | One more incident raises the grid total by exactly one, which keeps `count` equal to the grid total. |
| `Density.MergeCell` | module4/hw/data_cleanup/main.js:125-135 | Each count of a merged grid is the sum of the two grids' counts at that position. |
| `Density.MergePairs` | module4/hw/data_cleanup/main.js:125-128 | The latitudes and key pairs of a merged grid are the union of the two grids'. |
| `Density.MergeTotal` | module4/hw/data_cleanup/main.js:123-135 | Merging conserves incidents: the merged total is the sum of the two totals. |
| `Density.MergeInto` | module4/hw/data_cleanup/main.js:125-135 | The nested key loops compute the additive merge `Merge(acc, g)`. |
| `CollisionMap.MergeMonths` | module4/hw/main.js:38-53 | The reduce over the month documents computes the in-order merge of their citywide grids. |
| `CollisionMap.ReducedCells` | module4/hw/main.js:38-53 | `reduced[lat][lng]` is the sum over all months of that month's count there, with absent counting as 0. |
| `CollisionMap.ReducedPairs` | module4/hw/main.js:40-46 | The key pairs of `reduced` are exactly the union of the months' key pairs. |
| `CollisionMap.ReducedTotal` | module4/hw/main.js:38-53 | The total of `reduced` is the sum of the months' totals. |
| `CollisionMap.Flatten` | module4/hw/main.js:56-65 | Every point is a key pair of `reduced` carrying its count. No two points share a position, and every key pair has a point. An empty grid gives an empty list. |
| `CollisionMap.CollisionPoints` | module4/hw/main.js:36-65 | Merge then flatten. An empty `data` gives an empty `reduced` and an empty list. |

## Left out

- Reading and parsing the CSV file, the `readable`/`end` event wiring, `JSON.stringify` and writing the output file are I/O. The model takes an already-parsed sequence of rows and returns the documents.
- The month label is derived from the DATE column by a date library, with format `MMM YYYY`. It is an opaque string field of the row. Lenient date parsing and the `"Invalid date"` label are not modelled.
- The coordinate keys come from `parseFloat(...).toFixed(3)`, which is floating point. They are opaque string fields of the row. A comment in the geo script speaks of 2 decimal points, but the code uses 3.
- Killed and injured counts are already-parsed naturals. `parseInt` of a blank or non-numeric cell gives `NaN` (module1/hw/data_cleanup/main.js:49-50, module4/hw/data_cleanup/main.js:80-81), and the following `|| 0` then resets a `NaN` counter on the next row. Neither is modelled.
- Deaths, injuries, incident counts and grid cells are unbounded naturals. In the source they are JavaScript numbers (doubles), whose `+=` stays exact only up to 2^53; the model does not capture the loss of exactness above that.
- Case mapping covers ASCII letters only. Other characters keep their case.
- The iteration order of `Object.keys` is not modelled. The rollups and merges iterate over key sets in an unspecified order, and every property is order-independent.
- `Tally.Aggregator.End`: the source decorates the month buckets in place and reassigns `order` to the output list. The model leaves the fields unchanged and returns the documents as new values.
- `GeoTally.Aggregator.End`: the source decorates the month buckets in place and reassigns `order` to the output list. The model leaves the fields unchanged and returns the documents as new values.
- `CollisionMap.Flatten`: the order of the points follows `Object.keys` in the source and is left unspecified. The projected `x`/`y` of each point come from a Mercator projection (floating point) and are not modelled. Only the count is kept.
- `GeoTally.AssertHasStringAttrs`: the early exit at the first failing property is in the body. The contract states only the answer, which is all a caller can observe.
- All D3 rendering, the election-district map, scales, axes, tooltips and the circle radius `Math.sqrt(count / 4)` are UI over a graphics library. They are not part of this model.
