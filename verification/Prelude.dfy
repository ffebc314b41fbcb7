/** Wrappers for missing values and failures, and the meaning of SQL's ORDER BY on a finite table. */
module Prelude {

  datatype Option<+T> = None | Some(value: T)

  datatype Result<+T, +E> = Ok(value: T) | Err(error: E)

  /** A two-column sort key, compared lexicographically. */
  type SortKey = (int, int)

  predicate KeyLe(a: SortKey, b: SortKey) {
    a.0 < b.0 || (a.0 == b.0 && a.1 <= b.1)
  }

  ghost predicate SortedBy<T>(rows: seq<T>, key: T -> SortKey) {
    forall i, j :: 0 <= i < j < |rows| ==> KeyLe(key(rows[i]), key(rows[j]))
  }

  function InsertRow<T>(row: T, rows: seq<T>, key: T -> SortKey): (r: seq<T>)
    ensures multiset(r) == multiset([row]) + multiset(rows)
  {
    if rows == [] then [row]
    else if KeyLe(key(row), key(rows[0])) then [row] + rows
    else
      assert rows == [rows[0]] + rows[1..];
      [rows[0]] + InsertRow(row, rows[1..], key)
  }

  /** SELECT ... ORDER BY key. */
  function OrderBy<T>(rows: seq<T>, key: T -> SortKey): (r: seq<T>)
    ensures multiset(r) == multiset(rows)
  {
    if rows == [] then [] else
      assert rows == [rows[0]] + rows[1..];
      InsertRow(rows[0], OrderBy(rows[1..], key), key)
  }

  lemma {:induction false} InsertRowSorted<T>(row: T, rows: seq<T>, key: T -> SortKey)
    requires SortedBy(rows, key)
    ensures SortedBy(InsertRow(row, rows, key), key)
  {
    if rows == [] || KeyLe(key(row), key(rows[0])) {
    } else {
      var rest := InsertRow(row, rows[1..], key);
      InsertRowSorted(row, rows[1..], key);
      forall j | 0 <= j < |rest| ensures KeyLe(key(rows[0]), key(rest[j])) {
        assert rest[j] in multiset(rest);
        if rest[j] != row {
          assert rest[j] in multiset(rows[1..]);
          var i :| 0 <= i < |rows[1..]| && rows[1..][i] == rest[j];
          assert rows[i + 1] == rest[j];
        }
      }
    }
  }

  lemma {:induction false} OrderBySorted<T>(rows: seq<T>, key: T -> SortKey)
    ensures SortedBy(OrderBy(rows, key), key)
  {
    if rows == [] {
    } else {
      OrderBySorted(rows[1..], key);
      InsertRowSorted(rows[0], OrderBy(rows[1..], key), key);
    }
  }

  /** Ordering an already ordered result again changes nothing. */
  lemma {:induction false} OrderBySortedIdentity<T>(rows: seq<T>, key: T -> SortKey)
    requires SortedBy(rows, key)
    ensures OrderBy(rows, key) == rows
  {
    if rows == [] {
    } else {
      OrderBySortedIdentity(rows[1..], key);
      assert rows == [rows[0]] + rows[1..];
      if |rows| > 1 { assert KeyLe(key(rows[0]), key(rows[1])); }
    }
  }
}
