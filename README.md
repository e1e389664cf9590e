# Streaming and pagination over the `users` table

This project models the three generator programs of `python-generators-0x00`.
Each one reads a `users` table (`id`, `name`, `age`, `email`) a piece at a time.

- **Offset batch streamer** (`stream_users_in_batches`) and its **age filter**
  (`batch_processing`). The streamer issues `LIMIT batch_size OFFSET offset`,
  starting at offset 0 and stepping by `batch_size`. It yields every non-empty
  result as a batch. The filter keeps the users older than 25 from each batch
  and drops the batches that end up empty.
- **Look-ahead paginator**. `paginate_users` asks for `page_size + 1` rows. It
  sets `has_more` when more than `page_size` rows came back, then trims the
  page to `page_size` rows. `lazy_paginate` walks the offsets 0, `page_size`,
  2·`page_size`, and so on. It stops on an empty page, or after a page
  without `has_more`.
- **Scalar streamer and running average**. `stream_user_ages` yields one age
  per `fetchone`. `calculate_average_age` keeps a running total and a count,
  and returns 0.0 for no rows.

The table is a fixed `seq<Row>` in one fixed row order. A row is the tuple the
cursor returns, `(id, name, age, email)`. `Window` is the `LIMIT/OFFSET` query.
`FetchOne` is one step of a forward-only cursor. Each generator is a method
that runs the source's loop to exhaustion and returns the list of everything it
yields. That method is proved equal to a recursive function that states the
same stream one step at a time (`BatchesFrom`, `PagesFrom`). The properties are
proved as lemmas about that function.

Modules: `UserRows` (the table, the query, the row-to-dictionary loop),
`BatchProcessing`, `LazyPaginate`, `StreamAges`.

Behaviour of the code that the model keeps:

- The code does not validate `batch_size` or `page_size`. A size of 0 makes the
  first fetch (`LIMIT 0`, or a page trimmed to 0 rows) come back empty, so
  nothing is yielded. The model takes sizes as `nat`, with no precondition,
  and reproduces that behaviour. The lemmas about counts, sizes and partition
  (`BatchesFromCount`, `BatchesFromPartition`, `BatchesPartition`,
  `BatchSizes`, `PagesPartition`, `PageAt`) require a size of at least 1,
  because with size 0 there are no batches or pages at all.
- Database errors are not caught. No error path is modelled.
- The filter is the fixed test `age > 25`, not an arbitrary predicate.
- The paginator's "stop on an empty page" never fires after a full page. When
  the table length is an exact multiple of `page_size`, the last full page
  already reports `has_more == false`, because the overfetch returns exactly
  `page_size` rows. So the empty-page exit only fires for an empty table (or a
  zero size). `PagesPartition` (no pages exactly when the table is empty) and
  `PagesFromAgreesWithBatches` state this.

## Model

| member | source | states |
|---|---|---|
| `UserRows.Window` | python-generators-0x00/1-batch_processing.py:55-60 | `LIMIT limit OFFSET offset` returns `min(limit, rows left)` rows, or none once the offset is past the end. Row k of the result is table row `offset + k`, so the rows are contiguous. |
| `UserRows.ConvertRows` | python-generators-0x00/1-batch_processing.py:66-75 | The loop builds one dictionary per fetched row, in row order. Columns 0..3 become `id`, `name`, `age`, `email`. The same loop appears in `paginate_users`. |
| `BatchProcessing.StreamUsersInBatches` | python-generators-0x00/1-batch_processing.py:38-80 | The `while True` loop, with its offset starting at 0 and growing by `batch_size`, yields exactly the stream `Batches(table, batchSize)`. |
| `BatchProcessing.BatchesFromCount` | python-generators-0x00/1-batch_processing.py:51-78 | The number of batches n is the rows left rounded up to whole batches: `(n-1)·size < rows left <= n·size`. There are none once the offset is past the end. |
| `BatchProcessing.BatchesFromAt` | python-generators-0x00/1-batch_processing.py:51-78 | Batch i is the query at offset `offset + i·size`. The offset grows by the fixed size, not by the rows returned. That offset lies inside the table. |
| `BatchProcessing.BatchesFromPartition` | python-generators-0x00/1-batch_processing.py:53-78 | The batches from any offset, concatenated, are every row from that offset on, once each and in order. |
| `BatchProcessing.BatchesPartition` | python-generators-0x00/1-batch_processing.py:51-78 | For size >= 1, all batches concatenated are the whole table, converted to users, in order. |
| `BatchProcessing.BatchSizes` | python-generators-0x00/1-batch_processing.py:60-78 | No batch is empty or holds more than `batch_size` users. Every batch except the last is full. There are no batches exactly when the table is empty. |
| `BatchProcessing.FilterOver25` | python-generators-0x00/1-batch_processing.py:95 | The comprehension keeps only users with `age > 25`, and it keeps every such user. The result is no longer than the batch. |
| `BatchProcessing.FilterOver25InOrder` | python-generators-0x00/1-batch_processing.py:95 | The filtered batch is the batch walked in order, each user kept (age > 25) or dropped in turn, so kept users keep their batch order. |
| `BatchProcessing.FilterOver25Append` | python-generators-0x00/1-batch_processing.py:95 | Filtering a concatenation equals concatenating the filtered parts, so order is kept across batches. |
| `BatchProcessing.FilterBatches` | python-generators-0x00/1-batch_processing.py:93-98 | Every output batch is non-empty and holds only users older than 25. There are at most as many output batches as input batches. |
| `BatchProcessing.FilterBatchesComplete` | python-generators-0x00/1-batch_processing.py:93-98 | The output batches, concatenated, equal the order-preserving `age > 25` filter of the concatenated input. |
| `BatchProcessing.BatchProcessing` | python-generators-0x00/1-batch_processing.py:82-98 | `batch_processing` yields `FilterBatches` of the streamed batches. Each yielded batch is non-empty and holds only users with `age > 25`. For size >= 1, together they are exactly the users of the whole table older than 25, in table order. |
| `BatchProcessing.DemoBatchSizes` | python-generators-0x00/1-batch_processing.py:21-32 | The 10-row sample table with batches of 3 (the demo's size) gives 4 batches of sizes 3, 3, 3 and 1. The last batch is Jack's row alone. |
| `LazyPaginate.PaginateUsers` | python-generators-0x00/2-lazy_paginate.py:43-86 | After fetching `page_size + 1` rows and trimming, `has_more` is true exactly when rows exist beyond `offset + page_size`. The page is the plain `LIMIT page_size OFFSET offset` query, at most `page_size` users. |
| `LazyPaginate.LazyPaginate` | python-generators-0x00/2-lazy_paginate.py:88-118 | The loop, with its two exits (empty page; no `has_more`), yields exactly the stream `Pages(table, pageSize)`. |
| `LazyPaginate.PagesFromAgreesWithBatches` | python-generators-0x00/2-lazy_paginate.py:99-118 | From any offset, the look-ahead paginator yields exactly what the offset batch streamer yields for the same size. |
| `LazyPaginate.PagesPartition` | python-generators-0x00/2-lazy_paginate.py:99-118 | For size >= 1, the pages concatenated are the whole table in order. No page is empty or over `page_size`, and every page except the last is full. There are no pages exactly when the table is empty. |
| `LazyPaginate.PageAt` | python-generators-0x00/2-lazy_paginate.py:104-118 | Page i is the page `paginate_users` returns at offset `i·page_size`. The `has_more` it reports there is true exactly when another page follows. |
| `LazyPaginate.DemoPagesOfFour` | python-generators-0x00/2-lazy_paginate.py:21-37 | The 15-row sample table with pages of 4 gives 4 pages of sizes 4, 4, 4 and 3, and `has_more` is true, true, true, false at their offsets. |
| `LazyPaginate.DemoPagesOfThree` | python-generators-0x00/2-lazy_paginate.py:152-166 | With pages of 3 there are 5 pages, and the first two pages hold 3 users each. |
| `StreamAges.StreamUserAges` | python-generators-0x00/4-stream_ages.py:48-69 | Reading with `fetchone` until None yields the age column of every row, once each, in row order. |
| `StreamAges.RunningTotal` | python-generators-0x00/4-stream_ages.py:79-85 | After the loop, `count` is the number of ages and `total_age` is their sum. The loop invariant says this holds for every prefix consumed. |
| `StreamAges.CalculateAverageAge` | python-generators-0x00/4-stream_ages.py:71-90 | An empty table gives 0.0. Otherwise the result times the row count equals the sum of all ages, i.e. it is sum / count as an exact real. |
| `StreamAges.AverageWithinRange` | python-generators-0x00/4-stream_ages.py:87-90 | The average of a non-empty stream lies between any lower and upper bound of its ages. |
| `StreamAges.RunningAverages` | python-generators-0x00/4-stream_ages.py:98-112 | The demo loop reports `min(10, rows)` running averages. The k-th is the average of the first k+1 ages, and the loop stops after the tenth. |
| `StreamAges.DemoAverage` | python-generators-0x00/4-stream_ages.py:21-42 | The ages of the 20-row sample table sum to 590, so the average is 29.5. |

## Left out

- Database access: `setup_demo_database`, connections, `cursor.execute`,
  `fetchall` and `conn.close`. The table is a fixed sequence. A fresh demo database
  per call gives the same rows every time, which is what a fixed sequence models.
- Laziness and memory bounds: each generator is run to completion and its
  yielded units are returned as one list. The model shows what is yielded and
  in what order. It does not show that only one batch, page or age is in
  memory at a time, or when each fetch happens.
- Negative `batch_size`, `page_size` or offsets: sizes are `nat`. In SQLite a
  negative `LIMIT` means "no limit", and the batch loop would then not end.
- Floating point: the average is an exact `real`. The `:.2f` formatting is left out.
- `main`, `demonstrate_lazy_behavior`, the printing in
  `demonstrate_memory_efficiency` and `time.sleep`. These are console output.
  The running-average loop is kept as `RunningAverages`, which returns the values it prints.
- The code does not validate sizes or catch database errors, so neither is
  modelled.
- `UserRows.FetchOne` is only the abstraction of SQLite's forward-only cursor
  (`fetchone` returns the next row, or None past the last). It states nothing
  beyond that, and `StreamAges.StreamUserAges` carries the promise of the loop
  that uses it.
- Column values: every column is assumed non-NULL, `id` and `age` integers,
  `name` and `email` text. The schema declares `age INTEGER` without
  `NOT NULL`, and SQLite accepts any value there. For a NULL age, the code's
  `user['age'] > 25` and `total_age += age` raise `TypeError`. For a REAL age
  the comparison and the average use floating point. Neither case is modelled.
- Row order: the queries have no `ORDER BY`. With `id INTEGER PRIMARY KEY`,
  SQLite scans in id order, which is insertion order in the demos because they
  insert ascending ids. The model assumes one fixed order that every query
  sees, including the fresh database `paginate_users` opens on every call. The
  partition results rest on that assumption.
- `0-stream_users.py`, `seed.py`, the context-manager and async examples, the
  query-logging decorator, the Django/DRF applications and the unit tests are not
  part of this model.
