/** Tables without a unique order column are sequences of rows in insertion order.
    `Of` is the sub-table of one order; `Find` is a query expected to return at most one row. */
module Rows {
  import opened Base

  function Of<T>(rows: seq<T>, key: T -> Uuid, o: Uuid): seq<T> {
    if rows == [] then []
    else
      var last := |rows| - 1;
      Of(rows[..last], key, o) + (if key(rows[last]) == o then [rows[last]] else [])
  }

  /** The answer of a repository lookup by order: the last two cases are the row's position
      and the exception thrown for a result that is not unique. */
  datatype Lookup = NoRow | OneRow(position: nat) | ManyRows

  function Find<T>(rows: seq<T>, key: T -> Uuid, o: Uuid): (r: Lookup)
    ensures r.NoRow? <==> forall k | 0 <= k < |rows| :: key(rows[k]) != o
    ensures r.OneRow? ==> r.position < |rows| && key(rows[r.position]) == o
    ensures r.OneRow? ==> forall k | 0 <= k < |rows| && k != r.position :: key(rows[k]) != o
    ensures r.ManyRows? ==> exists i, j | 0 <= i < j < |rows| :: key(rows[i]) == key(rows[j]) == o
  {
    if rows == [] then NoRow
    else
      var last := |rows| - 1;
      var before := Find(rows[..last], key, o);
      if key(rows[last]) != o then before
      else if before.NoRow? then OneRow(last)
      else ManyRows
  }

  lemma OfAppend<T>(rows: seq<T>, row: T, key: T -> Uuid, o: Uuid)
    ensures Of(rows + [row], key, o) == Of(rows, key, o) + (if key(row) == o then [row] else [])
  {
    assert (rows + [row])[..|rows|] == rows;
  }

  lemma {:induction false} OfMember<T>(rows: seq<T>, key: T -> Uuid, o: Uuid, row: T)
    ensures row in Of(rows, key, o) <==> row in rows && key(row) == o
  {
    if rows != [] {
      var last := |rows| - 1;
      OfMember(rows[..last], key, o, row);
      assert rows == rows[..last] + [rows[last]];
    }
  }

  /** A table that only grows has sub-tables that only grow. */
  lemma {:induction false} OfPrefix<T>(before: seq<T>, after: seq<T>, key: T -> Uuid, o: Uuid)
    requires before <= after
    ensures Of(before, key, o) <= Of(after, key, o)
    decreases |after|
  {
    if |before| == |after| {
      assert before == after;
    } else {
      OfPrefix(before, after[..|after| - 1], key, o);
    }
  }

  /** The lookup sees exactly the sub-table: its emptiness, its single row, or more than one. */
  lemma {:induction false} FindOf<T>(rows: seq<T>, key: T -> Uuid, o: Uuid)
    ensures Find(rows, key, o).NoRow? <==> Of(rows, key, o) == []
    ensures var r := Find(rows, key, o); r.OneRow? ==> Of(rows, key, o) == [rows[r.position]]
    ensures Find(rows, key, o).ManyRows? <==> |Of(rows, key, o)| >= 2
  {
    if rows != [] {
      FindOf(rows[..|rows| - 1], key, o);
    }
  }

  /** Overwriting the only row of an order leaves every other order's sub-table alone. */
  lemma {:induction false} OfUpdate<T>(rows: seq<T>, i: nat, row: T, key: T -> Uuid, o: Uuid)
    requires i < |rows| && key(row) == key(rows[i])
    ensures o != key(row) ==> Of(rows[i := row], key, o) == Of(rows, key, o)
    ensures Find(rows, key, o) == OneRow(i) ==> Of(rows[i := row], key, o) == [row]
  {
    var last := |rows| - 1;
    var updated := rows[i := row];
    if i == last {
      assert updated[..last] == rows[..last];
      FindOf(rows[..last], key, o);
    } else {
      assert updated[..last] == rows[..last][i := row];
      OfUpdate(rows[..last], i, row, key, o);
    }
  }

  lemma FindAppend<T>(rows: seq<T>, row: T, key: T -> Uuid, o: Uuid)
    ensures key(row) != o ==> Find(rows + [row], key, o) == Find(rows, key, o)
  {
    assert (rows + [row])[..|rows|] == rows;
  }

  lemma {:induction false} FindUpdate<T>(rows: seq<T>, i: nat, row: T, key: T -> Uuid, o: Uuid)
    requires i < |rows| && key(row) == key(rows[i])
    ensures Find(rows[i := row], key, o) == Find(rows, key, o)
  {
    var last := |rows| - 1;
    var updated := rows[i := row];
    if i == last {
      assert updated[..last] == rows[..last];
    } else {
      assert updated[..last] == rows[..last][i := row];
      FindUpdate(rows[..last], i, row, key, o);
      assert updated[last] == rows[last];
    }
    assert Find(updated[..last], key, o) == Find(rows[..last], key, o);
  }
}
