/** The look-ahead paginator: `paginate_users` fetches one row more than a page
    to learn whether another page follows, and `lazy_paginate` walks the pages
    from offset 0 until a page is empty or says nothing follows. */
module LazyPaginate {
  import opened UserRows
  import BatchProcessing

  /** Whether rows exist beyond the page of `pageSize` rows at `offset`: what
      the `has_more` of `paginate_users` reports. */
  predicate HasMore(table: seq<Row>, pageSize: nat, offset: nat)
  {
    offset + pageSize < |table|
  }

  /** `paginate_users(page_size, offset)`: the page at `offset` and `has_more`.
      The query asks for `page_size + 1` rows; the page keeps at most
      `page_size` of them. */
  method PaginateUsers(table: seq<Row>, pageSize: nat, offset: nat)
    returns (users: seq<User>, hasMore: bool)
    ensures hasMore == HasMore(table, pageSize, offset)
    ensures |users| <= pageSize
    ensures users == ToUsers(Window(table, pageSize, offset))
  {
    var rows := Window(table, pageSize + 1, offset);
    hasMore := |rows| > pageSize;
    if hasMore {
      rows := rows[..pageSize];
    }
    assert rows == Window(table, pageSize, offset);
    users := ConvertRows(rows);
  }

  /** What `lazy_paginate` yields from `offset` on: the page at `offset`; none
      if it is empty; nothing after it unless rows lie beyond it. */
  function PagesFrom(table: seq<Row>, pageSize: nat, offset: nat): seq<seq<User>>
    decreases |table| - offset
  {
    var page := ToUsers(Window(table, pageSize, offset));
    var hasMore := HasMore(table, pageSize, offset);
    if page == [] then []
    else if !hasMore then [page]
    else [page] + PagesFrom(table, pageSize, offset + pageSize)
  }

  /** Everything `lazy_paginate(page_size)` yields: the offset starts at 0. */
  function Pages(table: seq<Row>, pageSize: nat): seq<seq<User>>
  {
    PagesFrom(table, pageSize, 0)
  }

  /** The generator, run to exhaustion: `pages` is the list of yielded pages. */
  method LazyPaginate(table: seq<Row>, pageSize: nat) returns (pages: seq<seq<User>>)
    ensures pages == Pages(table, pageSize)
  {
    pages := [];
    var offset := 0;
    while true
      invariant offset <= |table|
      invariant pages + PagesFrom(table, pageSize, offset) == Pages(table, pageSize)
      decreases |table| - offset
    {
      var page, hasMore := PaginateUsers(table, pageSize, offset);
      if page == [] {
        break;
      }
      pages := pages + [page];
      if !hasMore {
        break;
      }
      offset := offset + pageSize;
    }
  }

  /** The look-ahead paginator yields exactly what the offset batch streamer
      yields for the same size: the stop after a page without `has_more`
      only skips a fetch that would have come back empty. */
  lemma {:induction false} PagesFromAgreesWithBatches(table: seq<Row>, pageSize: nat, offset: nat)
    ensures PagesFrom(table, pageSize, offset) == BatchProcessing.BatchesFrom(table, pageSize, offset)
    decreases |table| - offset
  {
    var rows := Window(table, pageSize, offset);
    var next := offset + pageSize;
    if rows != [] {
      if next < |table| {
        PagesFromAgreesWithBatches(table, pageSize, next);
      } else {
        assert Window(table, pageSize, next) == [];
        assert BatchProcessing.BatchesFrom(table, pageSize, next) == [];
      }
    }
  }

  /** Partition and page sizes: the pages, concatenated, are the whole table in
      order; no page is empty or larger than `pageSize`, every page but the
      last is full, and there are no pages exactly when the table is empty. */
  lemma PagesPartition(table: seq<Row>, pageSize: nat)
    requires pageSize >= 1
    ensures Flatten(Pages(table, pageSize)) == ToUsers(table)
    ensures Pages(table, pageSize) == [] <==> |table| == 0
    ensures forall i :: 0 <= i < |Pages(table, pageSize)| ==>
              0 < |Pages(table, pageSize)[i]| <= pageSize
    ensures forall i :: 0 <= i < |Pages(table, pageSize)| - 1 ==>
              |Pages(table, pageSize)[i]| == pageSize
  {
    PagesFromAgreesWithBatches(table, pageSize, 0);
    BatchProcessing.BatchesPartition(table, pageSize);
    BatchProcessing.BatchSizes(table, pageSize);
  }

  /** The i-th page is the one `paginate_users` returns at offset
      `i * pageSize`, and the `has_more` it reports there is true exactly when
      another page follows it. */
  lemma PageAt(table: seq<Row>, pageSize: nat, i: nat)
    requires pageSize >= 1
    requires i < |Pages(table, pageSize)|
    ensures Pages(table, pageSize)[i] == ToUsers(Window(table, pageSize, i * pageSize))
    ensures HasMore(table, pageSize, i * pageSize) <==> i + 1 < |Pages(table, pageSize)|
  {
    PagesFromAgreesWithBatches(table, pageSize, 0);
    BatchProcessing.BatchesFromAt(table, pageSize, 0, i);
    BatchProcessing.BatchesFromCount(table, pageSize, 0);
    var n := |Pages(table, pageSize)|;
    if i + 1 < n {
      BatchProcessing.BatchesFromAt(table, pageSize, 0, i + 1);
      assert (i + 1) * pageSize == i * pageSize + pageSize;
    } else {
      assert n * pageSize == i * pageSize + pageSize;
    }
  }

  /** The fifteen rows of the demonstration table. */
  const DemoTable: seq<Row> := [
    (1, "Alice", 28, "alice@email.com"),
    (2, "Bob", 22, "bob@email.com"),
    (3, "Charlie", 35, "charlie@email.com"),
    (4, "Diana", 19, "diana@email.com"),
    (5, "Eve", 42, "eve@email.com"),
    (6, "Frank", 26, "frank@email.com"),
    (7, "Grace", 31, "grace@email.com"),
    (8, "Henry", 24, "henry@email.com"),
    (9, "Iris", 29, "iris@email.com"),
    (10, "Jack", 33, "jack@email.com"),
    (11, "Kate", 27, "kate@email.com"),
    (12, "Liam", 30, "liam@email.com"),
    (13, "Mia", 25, "mia@email.com"),
    (14, "Noah", 38, "noah@email.com"),
    (15, "Olivia", 23, "olivia@email.com")
  ]

  /** Pages of 4 over the demonstration table: four pages of 4, 4, 4 and 3
      users, with `has_more` true for the first three only. */
  lemma DemoPagesOfFour()
    ensures |Pages(DemoTable, 4)| == 4
    ensures |Pages(DemoTable, 4)[0]| == 4 && |Pages(DemoTable, 4)[1]| == 4
    ensures |Pages(DemoTable, 4)[2]| == 4 && |Pages(DemoTable, 4)[3]| == 3
    ensures forall i :: 0 <= i < 4 ==> (HasMore(DemoTable, 4, i * 4) <==> i < 3)
  {
    var ps := Pages(DemoTable, 4);
    PagesFromAgreesWithBatches(DemoTable, 4, 0);
    BatchProcessing.BatchesFromCount(DemoTable, 4, 0);
    assert |ps| == 4;
    PagesPartition(DemoTable, 4);
    PageAt(DemoTable, 4, 3);
  }

  /** Pages of 3, as the lazy-behaviour demonstration takes them one at a time:
      the first two pages hold 3 users each. */
  lemma DemoPagesOfThree()
    ensures |Pages(DemoTable, 3)| == 5
    ensures |Pages(DemoTable, 3)[0]| == 3 && |Pages(DemoTable, 3)[1]| == 3
  {
    PagesFromAgreesWithBatches(DemoTable, 3, 0);
    BatchProcessing.BatchesFromCount(DemoTable, 3, 0);
    assert |Pages(DemoTable, 3)| == 5;
    PagesPartition(DemoTable, 3);
  }
}
