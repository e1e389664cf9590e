/** The scalar streamer `stream_user_ages`, which yields the age of one row at a
    time from a forward-only cursor, and the aggregate `calculate_average_age`,
    which keeps only a running total and a count. */
module StreamAges {
  import opened UserRows

  /** The age column of the table (column 2), in row order: the result of
      `SELECT age FROM users`. */
  function AgeColumn(table: seq<Row>): seq<int>
  {
    seq(|table|, k requires 0 <= k < |table| => table[k].2)
  }

  /** The generator, run to exhaustion: `fetchone` until it returns None,
      yielding the one column of each row. */
  method StreamUserAges(table: seq<Row>) returns (ages: seq<int>)
    ensures |ages| == |table|
    ensures forall k :: 0 <= k < |table| ==> ages[k] == table[k].2
  {
    ages := [];
    var position := 0;
    while true
      invariant position <= |table|
      invariant ages == AgeColumn(table[..position])
      decreases |table| - position
    {
      var row := FetchOne(table, position);
      if row.None? {
        break;
      }
      ages := ages + [row.value.2];
      position := position + 1;
      assert table[..position] == table[..position - 1] + [table[position - 1]];
    }
    assert table[..position] == table;
  }

  /** The sum of a list of ages, added up from the front. */
  function Sum(xs: seq<int>): int
  {
    if xs == [] then 0 else xs[0] + Sum(xs[1..])
  }

  /** Adding one more age to the end adds it to the sum: the step of the
      running total. */
  lemma {:induction false} SumSnoc(xs: seq<int>, x: int)
    ensures Sum(xs + [x]) == Sum(xs) + x
  {
    if xs == [] {
      assert xs + [x] == [x];
      assert [x][1..] == [];
    } else {
      assert (xs + [x])[1..] == xs[1..] + [x];
      SumSnoc(xs[1..], x);
    }
  }

  /** One step of the sum on a suffix. */
  lemma SumFrom(xs: seq<int>, k: nat)
    requires k < |xs|
    ensures Sum(xs[k..]) == xs[k] + Sum(xs[k + 1..])
  {
    assert xs[k..][1..] == xs[k + 1..];
  }

  /** The exact average: 0 for no ages, otherwise the sum over the count. */
  function Average(xs: seq<int>): real
  {
    if |xs| == 0 then 0.0 else Sum(xs) as real / |xs| as real
  }

  /** The running total after consuming `ages[..i]` is the sum of that prefix. */
  method RunningTotal(ages: seq<int>) returns (totalAge: int, count: nat)
    ensures count == |ages|
    ensures totalAge == Sum(ages)
  {
    totalAge, count := 0, 0;
    for i := 0 to |ages|
      invariant count == i
      invariant totalAge == Sum(ages[..i])
    {
      totalAge := totalAge + ages[i];
      count := count + 1;
      assert ages[..i + 1] == ages[..i] + [ages[i]];
      SumSnoc(ages[..i], ages[i]);
    }
    assert ages[..|ages|] == ages;
  }

  /** `calculate_average_age()`: 0.0 for an empty table, otherwise the sum of
      all ages divided by the number of rows. */
  method CalculateAverageAge(table: seq<Row>) returns (average: real)
    ensures |table| == 0 ==> average == 0.0
    ensures |table| > 0 ==> average * |table| as real == Sum(AgeColumn(table)) as real
    ensures average == Average(AgeColumn(table))
  {
    var ages := StreamUserAges(table);
    assert ages == AgeColumn(table);
    var totalAge, count := RunningTotal(ages);
    if count == 0 {
      return 0.0;
    }
    average := totalAge as real / count as real;
  }

  /** The sum of ages that all lie in `[lo, hi]` lies between `|xs| * lo` and
      `|xs| * hi`. */
  lemma {:induction false} SumBounds(xs: seq<int>, lo: int, hi: int)
    requires forall k :: 0 <= k < |xs| ==> lo <= xs[k] <= hi
    ensures |xs| * lo <= Sum(xs) <= |xs| * hi
  {
    if xs != [] {
      SumBounds(xs[1..], lo, hi);
      assert |xs| * lo == (|xs| - 1) * lo + lo;
      assert |xs| * hi == (|xs| - 1) * hi + hi;
    }
  }

  /** The average of a non-empty stream lies between its smallest and largest
      age. */
  lemma AverageWithinRange(xs: seq<int>, lo: int, hi: int)
    requires |xs| > 0
    requires forall k :: 0 <= k < |xs| ==> lo <= xs[k] <= hi
    ensures lo as real <= Average(xs) <= hi as real
  {
    SumBounds(xs, lo, hi);
    var n := |xs| as real;
    var s := Sum(xs) as real;
    var l, h := lo as real, hi as real;
    assert n * l <= s <= n * h;
    assert Average(xs) == s / n;
    assert s / n - l == (s - n * l) / n;
    assert h - s / n == (n * h - s) / n;
  }

  /** The demonstration loop: one running average per age consumed, stopping
      after the tenth. */
  method RunningAverages(table: seq<Row>) returns (shown: seq<real>)
    ensures |shown| == Min(10, |table|)
    ensures forall k :: 0 <= k < |shown| ==> shown[k] == Average(AgeColumn(table)[..k + 1])
  {
    var ages := StreamUserAges(table);
    assert ages == AgeColumn(table);
    var ageCount := 0;
    var runningSum := 0;
    shown := [];
    var i := 0;
    while i < |ages|
      invariant i == ageCount <= 9 && i <= |ages|
      invariant runningSum == Sum(ages[..i])
      invariant |shown| == i
      invariant forall k :: 0 <= k < i ==> shown[k] == Average(ages[..k + 1])
    {
      var age := ages[i];
      ageCount := ageCount + 1;
      runningSum := runningSum + age;
      assert ages[..i + 1] == ages[..i] + [age];
      SumSnoc(ages[..i], age);
      var currentAverage := runningSum as real / ageCount as real;
      shown := shown + [currentAverage];
      if ageCount >= 10 {
        break;
      }
      i := i + 1;
    }
  }

  /** The twenty rows of the demonstration table. */
  const DemoTable: seq<Row> := [
    (1, "Alice", 28, "alice@email.com"),
    (2, "Bob", 22, "bob@email.com"),
    (3, "Charlie", 35, "charlie@email.com"),
    (4, "Diana", 19, "diana@email.com"),
    (5, "Eve", 42, "eve@email.com"),
    (6, "Frank", 26, "frank@email.com"),
    (7, "Grace", 31, "grace@email.com"),
    (8, "Henry", 24, "henry@email.com"),
    (9, "Iris", 29, "iris@email.com"),
    (10, "Jack", 33, "jack@email.com"),
    (11, "Kate", 27, "kate@email.com"),
    (12, "Liam", 30, "liam@email.com"),
    (13, "Mia", 25, "mia@email.com"),
    (14, "Noah", 38, "noah@email.com"),
    (15, "Olivia", 23, "olivia@email.com"),
    (16, "Paul", 45, "paul@email.com"),
    (17, "Quinn", 21, "quinn@email.com"),
    (18, "Rachel", 34, "rachel@email.com"),
    (19, "Sam", 26, "sam@email.com"),
    (20, "Tina", 32, "tina@email.com")
  ]

  /** Over the demonstration table the ages add up to 590, so the average is 29.5. */
  lemma DemoAverage()
    ensures Sum(AgeColumn(DemoTable)) == 590
    ensures Average(AgeColumn(DemoTable)) == 29.5
  {
    var ages := AgeColumn(DemoTable);
    assert |ages| == 20 && ages[20..] == [];
    SumFrom(ages, 19);
    assert Sum(ages[19..]) == 32;
    SumFrom(ages, 18);
    assert Sum(ages[18..]) == 58;
    SumFrom(ages, 17);
    assert Sum(ages[17..]) == 92;
    SumFrom(ages, 16);
    assert Sum(ages[16..]) == 113;
    SumFrom(ages, 15);
    assert Sum(ages[15..]) == 158;
    SumFrom(ages, 14);
    assert Sum(ages[14..]) == 181;
    SumFrom(ages, 13);
    assert Sum(ages[13..]) == 219;
    SumFrom(ages, 12);
    assert Sum(ages[12..]) == 244;
    SumFrom(ages, 11);
    assert Sum(ages[11..]) == 274;
    SumFrom(ages, 10);
    assert Sum(ages[10..]) == 301;
    SumFrom(ages, 9);
    assert Sum(ages[9..]) == 334;
    SumFrom(ages, 8);
    assert Sum(ages[8..]) == 363;
    SumFrom(ages, 7);
    assert Sum(ages[7..]) == 387;
    SumFrom(ages, 6);
    assert Sum(ages[6..]) == 418;
    SumFrom(ages, 5);
    assert Sum(ages[5..]) == 444;
    SumFrom(ages, 4);
    assert Sum(ages[4..]) == 486;
    SumFrom(ages, 3);
    assert Sum(ages[3..]) == 505;
    SumFrom(ages, 2);
    assert Sum(ages[2..]) == 540;
    SumFrom(ages, 1);
    assert Sum(ages[1..]) == 562;
    SumFrom(ages, 0);
    assert Sum(ages[0..]) == 590;
    assert ages[0..] == ages;
  }
}
