/** The offset batch streamer `stream_users_in_batches` and its consumer
    `batch_processing`, which keeps the users older than 25 from each batch
    and drops the batches that end up empty. */
module BatchProcessing {
  import opened UserRows

  /** What the generator yields from cursor position `offset` on: fetch
      `LIMIT size OFFSET offset`; stop on no rows, otherwise yield the rows as
      users and go on from `offset + size`. */
  function BatchesFrom(table: seq<Row>, size: nat, offset: nat): seq<seq<User>>
    decreases |table| - offset
  {
    var rows := Window(table, size, offset);
    if rows == [] then [] else [ToUsers(rows)] + BatchesFrom(table, size, offset + size)
  }

  /** Everything `stream_users_in_batches(size)` yields: the offset starts at 0. */
  function Batches(table: seq<Row>, size: nat): seq<seq<User>>
  {
    BatchesFrom(table, size, 0)
  }

  /** The generator, run to exhaustion: `batches` is the list of yielded batches. */
  method StreamUsersInBatches(table: seq<Row>, batchSize: nat) returns (batches: seq<seq<User>>)
    ensures batches == Batches(table, batchSize)
  {
    batches := [];
    var offset := 0;
    while true
      invariant batches + BatchesFrom(table, batchSize, offset) == Batches(table, batchSize)
      decreases if offset <= |table| then |table| - offset else 0
    {
      var rows := Window(table, batchSize, offset);
      if rows == [] {
        break;
      }
      var batch := ConvertRows(rows);
      batches := batches + [batch];
      offset := offset + batchSize;
    }
  }

  /** How many batches there are: the table length rounded up to whole batches. */
  lemma {:induction false} BatchesFromCount(table: seq<Row>, size: nat, offset: nat)
    requires size >= 1
    ensures offset >= |table| ==> BatchesFrom(table, size, offset) == []
    ensures offset < |table| ==>
              var n := |BatchesFrom(table, size, offset)|;
              (n - 1) * size < |table| - offset <= n * size
    decreases |table| - offset
  {
    if offset < |table| {
      var rest := BatchesFrom(table, size, offset + size);
      assert |BatchesFrom(table, size, offset)| == 1 + |rest|;
      BatchesFromCount(table, size, offset + size);
      var m := |rest|;
      if offset + size < |table| {
        assert (m - 1) * size < |table| - offset - size <= m * size;
        assert (m - 1) * size + size == m * size;
        assert (m + 1) * size == m * size + size;
      } else {
        assert m == 0;
        assert (m + 1) * size == size;
      }
    }
  }

  /** The i-th batch is the i-th window: `LIMIT size OFFSET offset + i * size`,
      and that window starts inside the table. */
  lemma {:induction false} BatchesFromAt(table: seq<Row>, size: nat, offset: nat, i: nat)
    requires i < |BatchesFrom(table, size, offset)|
    ensures offset + i * size < |table|
    ensures BatchesFrom(table, size, offset)[i] == ToUsers(Window(table, size, offset + i * size))
    decreases i
  {
    var bs := BatchesFrom(table, size, offset);
    var rows := Window(table, size, offset);
    assert rows != [];
    if i == 0 {
      assert offset + i * size == offset;
    } else {
      var rest := BatchesFrom(table, size, offset + size);
      assert bs == [ToUsers(rows)] + rest;
      assert bs[i] == rest[i - 1];
      BatchesFromAt(table, size, offset + size, i - 1);
      assert offset + size + (i - 1) * size == offset + i * size;
    }
  }

  /** Partition: the batches from `offset` on, concatenated, are every row from
      `offset` on, each once and in table order. */
  lemma {:induction false} BatchesFromPartition(table: seq<Row>, size: nat, offset: nat)
    requires size >= 1
    ensures Flatten(BatchesFrom(table, size, offset)) == ToUsers(table[Min(offset, |table|)..])
    decreases |table| - offset
  {
    var rows := Window(table, size, offset);
    if rows != [] {
      var next := offset + size;
      BatchesFromPartition(table, size, next);
      var bs := BatchesFrom(table, size, offset);
      assert bs[1..] == BatchesFrom(table, size, next);
      assert rows == table[offset..Min(next, |table|)];
      assert table[offset..] == rows + table[Min(next, |table|)..];
      ToUsersAppend(rows, table[Min(next, |table|)..]);
    }
  }

  /** Over the whole table: all rows, once each, in order. */
  lemma BatchesPartition(table: seq<Row>, size: nat)
    requires size >= 1
    ensures Flatten(Batches(table, size)) == ToUsers(table)
  {
    BatchesFromPartition(table, size, 0);
    assert table[0..] == table;
  }

  /** No batch is empty, none is larger than `size`, and every batch but the
      last holds exactly `size` users; there are none exactly when the table is
      empty. */
  lemma BatchSizes(table: seq<Row>, size: nat)
    requires size >= 1
    ensures Batches(table, size) == [] <==> |table| == 0
    ensures forall i :: 0 <= i < |Batches(table, size)| ==>
              0 < |Batches(table, size)[i]| <= size
    ensures forall i :: 0 <= i < |Batches(table, size)| - 1 ==>
              |Batches(table, size)[i]| == size
  {
    var bs := Batches(table, size);
    BatchesFromCount(table, size, 0);
    forall i | 0 <= i < |bs|
      ensures 0 < |bs[i]| <= size
      ensures i < |bs| - 1 ==> |bs[i]| == size
    {
      BatchesFromAt(table, size, 0, i);
      if i < |bs| - 1 {
        BatchesFromAt(table, size, 0, i + 1);
        assert (i + 1) * size == i * size + size;
      }
    }
  }

  /** The age test of the list comprehension in `batch_processing`. */
  predicate OverTwentyFive(user: User)
  {
    user.age > 25
  }

  /** `[user for user in batch if user['age'] > 25]`. */
  function FilterOver25(batch: seq<User>): (kept: seq<User>)
    ensures forall u :: u in kept ==> u in batch && OverTwentyFive(u)
    ensures forall u :: u in batch && OverTwentyFive(u) ==> u in kept
    ensures |kept| <= |batch|
  {
    if batch == [] then []
    else (if OverTwentyFive(batch[0]) then [batch[0]] else []) + FilterOver25(batch[1..])
  }

  /** What the comprehension does with the user at position k: keeps it or
      drops it. */
  function Kept(batch: seq<User>, k: nat): seq<User>
    requires k < |batch|
  {
    if OverTwentyFive(batch[k]) then [batch[k]] else []
  }

  /** Order: the filtered batch is, position by position through the batch,
      each user kept or dropped in turn, so kept users stay in batch order. */
  lemma {:induction false} FilterOver25InOrder(batch: seq<User>)
    ensures FilterOver25(batch) == Flatten(seq(|batch|, k requires 0 <= k < |batch| => Kept(batch, k)))
  {
    var parts := seq(|batch|, k requires 0 <= k < |batch| => Kept(batch, k));
    if batch != [] {
      var tail := batch[1..];
      var tailParts := seq(|tail|, k requires 0 <= k < |tail| => Kept(tail, k));
      FilterOver25InOrder(tail);
      assert parts[1..] == tailParts;
      assert parts[0] == Kept(batch, 0);
    }
  }

  /** Filtering a concatenation filters each part, keeping their order. */
  lemma {:induction false} FilterOver25Append(a: seq<User>, b: seq<User>)
    ensures FilterOver25(a + b) == FilterOver25(a) + FilterOver25(b)
  {
    if a != [] {
      assert (a + b)[1..] == a[1..] + b;
      FilterOver25Append(a[1..], b);
    } else {
      assert a + b == b;
    }
  }

  /** What `batch_processing` yields for the upstream batches `batches`: each
      batch filtered, the empty results dropped. */
  function FilterBatches(batches: seq<seq<User>>): (out: seq<seq<User>>)
    ensures |out| <= |batches|
    ensures forall k :: 0 <= k < |out| ==>
              out[k] != [] && forall u :: u in out[k] ==> OverTwentyFive(u)
  {
    if batches == [] then []
    else
      var kept := FilterOver25(batches[|batches| - 1]);
      FilterBatches(batches[..|batches| - 1]) + (if kept == [] then [] else [kept])
  }

  /** Completeness and order: the filtered batches, concatenated, are the users
      older than 25 of the concatenated input, in input order. */
  lemma {:induction false} FilterBatchesComplete(batches: seq<seq<User>>)
    ensures Flatten(FilterBatches(batches)) == FilterOver25(Flatten(batches))
  {
    if batches != [] {
      var init, last := batches[..|batches| - 1], batches[|batches| - 1];
      var kept := FilterOver25(last);
      var tail: seq<seq<User>> := if kept == [] then [] else [kept];
      assert FilterBatches(batches) == FilterBatches(init) + tail;
      assert Flatten(tail) == kept by {
        FlattenSingle(kept);
      }
      assert batches == init + [last];
      calc {
        Flatten(FilterBatches(batches));
        { FlattenAppend(FilterBatches(init), tail); }
        Flatten(FilterBatches(init)) + kept;
        { FilterBatchesComplete(init); }
        FilterOver25(Flatten(init)) + FilterOver25(last);
        { FilterOver25Append(Flatten(init), last); }
        FilterOver25(Flatten(init) + last);
        { FlattenAppend(init, [last]); FlattenSingle(last); }
        FilterOver25(Flatten(batches));
      }
    }
  }

  /** `batch_processing(batch_size)` run to exhaustion. */
  method BatchProcessing(table: seq<Row>, batchSize: nat) returns (out: seq<seq<User>>)
    ensures out == FilterBatches(Batches(table, batchSize))
    ensures forall k :: 0 <= k < |out| ==>
              out[k] != [] && forall u :: u in out[k] ==> u.age > 25
    ensures batchSize >= 1 ==> Flatten(out) == FilterOver25(ToUsers(table))
  {
    var batches := StreamUsersInBatches(table, batchSize);
    out := [];
    for i := 0 to |batches|
      invariant out == FilterBatches(batches[..i])
    {
      var filtered := FilterOver25(batches[i]);
      if filtered != [] {
        out := out + [filtered];
      }
      assert batches[..i + 1][..i] == batches[..i];
    }
    assert batches[..|batches|] == batches;
    FilterBatchesComplete(batches);
    if batchSize >= 1 {
      BatchesPartition(table, batchSize);
    }
  }

  /** The ten rows of the demonstration table. */
  const DemoTable: seq<Row> := [
    (1, "Alice", 28, "alice@email.com"),
    (2, "Bob", 22, "bob@email.com"),
    (3, "Charlie", 35, "charlie@email.com"),
    (4, "Diana", 19, "diana@email.com"),
    (5, "Eve", 42, "eve@email.com"),
    (6, "Frank", 26, "frank@email.com"),
    (7, "Grace", 31, "grace@email.com"),
    (8, "Henry", 24, "henry@email.com"),
    (9, "Iris", 29, "iris@email.com"),
    (10, "Jack", 33, "jack@email.com")
  ]

  /** With batches of 3 the demonstration table comes out as batches of
      3, 3, 3 and 1 users, the last one holding Jack alone. */
  lemma DemoBatchSizes()
    ensures |Batches(DemoTable, 3)| == 4
    ensures |Batches(DemoTable, 3)[0]| == 3 && |Batches(DemoTable, 3)[1]| == 3
    ensures |Batches(DemoTable, 3)[2]| == 3
    ensures Batches(DemoTable, 3)[3] == [User(10, "Jack", 33, "jack@email.com")]
  {
    var bs := Batches(DemoTable, 3);
    BatchesFromCount(DemoTable, 3, 0);
    var n := |bs|;
    assert n == 4;
    BatchSizes(DemoTable, 3);
    BatchesFromAt(DemoTable, 3, 0, 3);
    assert Window(DemoTable, 3, 9) == [DemoTable[9]];
  }
}
