/** The `users` table that the three generators read, and the two things the
    generators do with it: the `LIMIT l OFFSET o` query and the conversion of
    a fetched row (a tuple `(id, name, age, email)`) into a user dictionary.

    The table is a fixed, ordered sequence of rows: the one order in which
    every query of the three programs sees them (id order for SQLite, as none
    of the queries has an ORDER BY). */
module UserRows {

  datatype Option<T> = None | Some(value: T)

  /** A row as the cursor returns it: columns 0..3 are id, name, age, email. */
  type Row = (int, string, int, string)

  /** The dictionary `{'id': .., 'name': .., 'age': .., 'email': ..}` built per row. */
  datatype User = User(id: int, name: string, age: int, email: string)

  function Min(a: int, b: int): int { if a <= b then a else b }

  /** `SELECT id, name, age, email FROM users LIMIT limit OFFSET offset`:
      the rows from position `offset` on, at most `limit` of them. */
  function Window(table: seq<Row>, limit: nat, offset: nat): (rows: seq<Row>)
    ensures |rows| == if offset < |table| then Min(limit, |table| - offset) else 0
    ensures forall k :: 0 <= k < |rows| ==> rows[k] == table[offset + k]
  {
    table[Min(offset, |table|)..Min(offset + limit, |table|)]
  }

  /** `cursor.fetchone()` on a cursor positioned at `position`: the next row, or
      None once the result set is exhausted. */
  function FetchOne(table: seq<Row>, position: nat): (row: Option<Row>)
    ensures row.None? <==> position >= |table|
    ensures row.Some? ==> row.value == table[position]
  {
    if position < |table| then Some(table[position]) else None
  }

  /** The dictionary for one row: column i goes to the i-th key. */
  function ToUser(row: Row): User
  {
    User(row.0, row.1, row.2, row.3)
  }

  /** The users for a list of rows, one per row, in row order. */
  function ToUsers(rows: seq<Row>): seq<User>
  {
    seq(|rows|, k requires 0 <= k < |rows| => ToUser(rows[k]))
  }

  /** The loop that appends one dictionary per fetched row to `batch`. */
  method ConvertRows(rows: seq<Row>) returns (users: seq<User>)
    ensures |users| == |rows|
    ensures forall k :: 0 <= k < |rows| ==>
              users[k] == User(rows[k].0, rows[k].1, rows[k].2, rows[k].3)
    ensures users == ToUsers(rows)
  {
    users := [];
    for i := 0 to |rows|
      invariant users == ToUsers(rows[..i])
    {
      var row := rows[i];
      var user := User(row.0, row.1, row.2, row.3);
      users := users + [user];
    }
    assert rows[..|rows|] == rows;
  }

  lemma ToUsersAppend(a: seq<Row>, b: seq<Row>)
    ensures ToUsers(a + b) == ToUsers(a) + ToUsers(b)
  {
  }

  /** The concatenation of a list of batches or pages. */
  function Flatten<T>(parts: seq<seq<T>>): seq<T>
  {
    if parts == [] then [] else parts[0] + Flatten(parts[1..])
  }

  lemma {:induction false} FlattenAppend<T>(a: seq<seq<T>>, b: seq<seq<T>>)
    ensures Flatten(a + b) == Flatten(a) + Flatten(b)
  {
    if a == [] {
      assert a + b == b;
    } else {
      assert (a + b)[1..] == a[1..] + b;
      FlattenAppend(a[1..], b);
    }
  }

  lemma FlattenSingle<T>(part: seq<T>)
    ensures Flatten([part]) == part
  {
    assert [part][1..] == [];
  }
}
