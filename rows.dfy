/**
 * Row selection over a table held as a sequence in insertion order: the
 * `where(eq(column, k))` of the queries and the complement a delete leaves.
 */
module Rows {

  /** The rows whose key is (or, with `equal` false, is not) `k`, in table order. */
  function Keep<T(!new), K(==)>(rows: seq<T>, key: T -> K, k: K, equal: bool): (r: seq<T>)
    ensures |r| <= |rows|
    ensures forall x :: x in r <==> x in rows && (key(x) == k) == equal
  {
    if rows == [] then []
    else (if (key(rows[0]) == k) == equal then [rows[0]] else []) + Keep(rows[1..], key, k, equal)
  }

  /** `select ... where key = k` */
  function Where<T(!new), K(==)>(rows: seq<T>, key: T -> K, k: K): (r: seq<T>)
    ensures |r| <= |rows|
    ensures forall x :: x in r <==> x in rows && key(x) == k
  {
    Keep(rows, key, k, true)
  }

  /** What `delete ... where key = k` leaves behind. */
  function WhereNot<T(!new), K(==)>(rows: seq<T>, key: T -> K, k: K): (r: seq<T>)
    ensures |r| <= |rows|
    ensures forall x :: x in r <==> x in rows && key(x) != k
  {
    Keep(rows, key, k, false)
  }

  /** Every row of the table is one whose key is `k`, or one whose key is not. */
  lemma {:induction false} KeepSplits<T(!new), K>(rows: seq<T>, key: T -> K, k: K)
    ensures |Where(rows, key, k)| + |WhereNot(rows, key, k)| == |rows|
  {
    if rows != [] {
      KeepSplits(rows[1..], key, k);
    }
  }

  /** Keys strictly increase along the table (auto-increment ids in insertion order). */
  ghost predicate Increasing<T>(rows: seq<T>, key: T -> int) {
    forall i, j :: 0 <= i < j < |rows| ==> key(rows[i]) < key(rows[j])
  }

  /** No two rows share a key. */
  ghost predicate DistinctBy<T, K>(rows: seq<T>, key: T -> K) {
    forall i, j :: 0 <= i < j < |rows| ==> key(rows[i]) != key(rows[j])
  }

  lemma {:induction false} KeepIncreasing<T(!new), K>(rows: seq<T>, key: T -> int, column: T -> K, k: K, equal: bool)
    requires Increasing(rows, key)
    ensures Increasing(Keep(rows, column, k, equal), key)
  {
    if rows != [] {
      KeepIncreasing(rows[1..], key, column, k, equal);
      var tail := Keep(rows[1..], column, k, equal);
      forall x | x in tail ensures key(rows[0]) < key(x) {
        var j :| 0 <= j < |rows[1..]| && rows[1..][j] == x;
        assert rows[j + 1] == x;
      }
    }
  }

  lemma {:induction false} KeepDistinct<T(!new), K, C>(rows: seq<T>, key: T -> K, column: T -> C, k: C, equal: bool)
    requires DistinctBy(rows, key)
    ensures DistinctBy(Keep(rows, column, k, equal), key)
  {
    if rows != [] {
      KeepDistinct(rows[1..], key, column, k, equal);
      var tail := Keep(rows[1..], column, k, equal);
      forall x | x in tail ensures key(rows[0]) != key(x) {
        var j :| 0 <= j < |rows[1..]| && rows[1..][j] == x;
        assert rows[j + 1] == x;
      }
    }
  }

  /** A delete that matches no row leaves the table as it was. */
  lemma {:induction false} WhereNotOfAbsent<T(!new), K>(rows: seq<T>, key: T -> K, k: K)
    requires forall x :: x in rows ==> key(x) != k
    ensures WhereNot(rows, key, k) == rows
    ensures Where(rows, key, k) == []
  {
    if rows != [] {
      WhereNotOfAbsent(rows[1..], key, k);
      assert rows == [rows[0]] + rows[1..];
    }
  }

  /** With distinct keys, a delete of a present key removes exactly one row. */
  lemma {:induction false} WhereNotRemovesOne<T(!new)>(rows: seq<T>, key: T -> int, k: int)
    requires Increasing(rows, key)
    requires exists x :: x in rows && key(x) == k
    ensures |WhereNot(rows, key, k)| == |rows| - 1
    ensures |Where(rows, key, k)| == 1
  {
    if key(rows[0]) == k {
      forall x | x in rows[1..] ensures key(x) != k {
        var j :| 0 <= j < |rows[1..]| && rows[1..][j] == x;
        assert rows[j + 1] == x;
      }
      WhereNotOfAbsent(rows[1..], key, k);
    } else {
      var x :| x in rows && key(x) == k;
      assert x in rows[1..];
      WhereNotRemovesOne(rows[1..], key, k);
    }
  }

  /** An id table: ids from 1 up, strictly increasing in insertion order, all below the next id to hand out. */
  ghost predicate IdTable<T>(rows: seq<T>, id: T -> int, next: int) {
    && 1 <= next
    && Increasing(rows, id)
    && forall x :: x in rows ==> 1 <= id(x) < next
  }

  /** Removing rows keeps an id table an id table. */
  lemma KeepIdTable<T(!new), K>(rows: seq<T>, id: T -> int, next: int, column: T -> K, k: K, equal: bool)
    requires IdTable(rows, id, next)
    ensures IdTable(Keep(rows, column, k, equal), id, next)
  {
    KeepIncreasing(rows, id, column, k, equal);
  }

  /** Appending rows with fresh ids, increasing and between the next id and the new next id, keeps an id table. */
  lemma AppendIdTable<T>(rows: seq<T>, extra: seq<T>, id: T -> int, next: int, next': int)
    requires IdTable(rows, id, next) && Increasing(extra, id) && next <= next'
    requires forall y :: y in extra ==> next <= id(y) < next'
    ensures IdTable(rows + extra, id, next')
  {
    AppendIncreasing(rows, extra, id);
  }

  /** Appending a row whose key no row has keeps the keys distinct. */
  lemma AppendDistinct<T, K>(rows: seq<T>, y: T, key: T -> K)
    requires DistinctBy(rows, key)
    requires forall x :: x in rows ==> key(x) != key(y)
    ensures DistinctBy(rows + [y], key)
  {
    var all := rows + [y];
    forall i, j | 0 <= i < j < |all| ensures key(all[i]) != key(all[j]) {
      assert all[i] in rows;
      if j < |rows| {
        assert all[i] == rows[i] && all[j] == rows[j];
      }
    }
  }

  /** Appending rows with larger keys keeps the keys increasing. */
  lemma AppendIncreasing<T>(rows: seq<T>, extra: seq<T>, key: T -> int)
    requires Increasing(rows, key) && Increasing(extra, key)
    requires forall x, y :: x in rows && y in extra ==> key(x) < key(y)
    ensures Increasing(rows + extra, key)
  {
    var all := rows + extra;
    forall i, j | 0 <= i < j < |all| ensures key(all[i]) < key(all[j]) {
      if j < |rows| {
        assert all[i] == rows[i] && all[j] == rows[j];
      } else if i >= |rows| {
        assert all[i] == extra[i - |rows|] && all[j] == extra[j - |rows|];
      } else {
        assert all[i] in rows && all[j] in extra;
      }
    }
  }
}
