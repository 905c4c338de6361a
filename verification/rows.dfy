/** A table as the list endpoints see it: the stored records paired with their
    primary keys, in ascending key order.  The queries at main.py:138-177 carry
    no ORDER BY; the model fixes the insertion (ascending primary key) order
    that a scan of a rowid table yields. */
module Rows {

  datatype Row<T> = Row(id: int, rec: T)

  /** Strictly ascending primary keys, hence no key twice. */
  ghost predicate Ascending<T>(rows: seq<Row<T>>) {
    forall i, j :: 0 <= i < j < |rows| ==> rows[i].id < rows[j].id
  }

  /** The primary keys that occur in a sequence of rows. */
  ghost function Ids<T>(rows: seq<Row<T>>): set<int> {
    set row | row in rows :: row.id
  }

  /** Every row is the stored record under its key. */
  ghost predicate RowsOf<T>(rows: seq<Row<T>>, m: map<int, T>) {
    forall row :: row in rows ==> row.id in m && m[row.id] == row.rec
  }

  /** Every row after the first of an ascending sequence has a larger key. */
  lemma AscendingHead<T>(rows: seq<Row<T>>)
    requires |rows| > 0
    ensures Ascending(rows) ==> Ascending(rows[1..])
    ensures Ascending(rows) ==> forall row :: row in rows[1..] ==> rows[0].id < row.id
  {
    if Ascending(rows) {
      forall row | row in rows[1..]
        ensures rows[0].id < row.id
      {
        var k :| 0 <= k < |rows[1..]| && rows[1..][k] == row;
        assert rows[k + 1] == row;
      }
    }
  }

  /** A row below every key of an ascending sequence may go in front of it. */
  lemma AscendingCons<T>(x: Row<T>, rest: seq<Row<T>>)
    ensures Ascending(rest) && (forall row :: row in rest ==> x.id < row.id) ==> Ascending([x] + rest)
  {
    if Ascending(rest) && (forall row :: row in rest ==> x.id < row.id) {
      var r := [x] + rest;
      forall i, j | 0 <= i < j < |r|
        ensures r[i].id < r[j].id
      {
        assert r[j] == rest[j - 1];
        if i > 0 {
          assert r[i] == rest[i - 1];
        } else {
          assert rest[j - 1] in rest;
        }
      }
    }
  }

  lemma IdAt<T>(rows: seq<Row<T>>, i: int)
    requires 0 <= i < |rows|
    ensures rows[i].id in Ids(rows)
  {
    assert rows[i] in rows;
  }

  /** The records of `m` whose keys lie in [lo, hi), in ascending key order. */
  function Between<T>(m: map<int, T>, lo: int, hi: int): (r: seq<Row<T>>)
    ensures RowsOf(r, m)
    ensures Ascending(r)
    ensures forall row :: row in r ==> lo <= row.id < hi
    ensures forall id :: id in m && lo <= id < hi ==> id in Ids(r)
    decreases hi - lo
  {
    if lo >= hi then []
    else
      var rest := Between(m, lo + 1, hi);
      if lo in m then
        var r := [Row(lo, m[lo])] + rest;
        AscendingCons(Row(lo, m[lo]), rest);
        assert forall row :: row in r ==> row == r[0] || row in rest;
        assert forall row :: row in rest ==> row in r;
        assert r[0] in r;
        r
      else rest
  }

  lemma FirstIsMember<T>(s: seq<T>)
    requires |s| > 0
    ensures s[0] in s
  {
  }

  /** Ascending rows are determined by the set of rows they hold: the filter
      and the table agree whenever their contents do. */
  lemma {:induction false} AscendingUnique<T>(a: seq<Row<T>>, b: seq<Row<T>>)
    requires Ascending(a) && Ascending(b)
    requires forall row :: row in a <==> row in b
    ensures a == b
    decreases |a|
  {
    if |a| > 0 && |b| > 0 {
      assert a[0] in b && b[0] in a;
      assert a[0] == b[0];
      forall row
        ensures row in a[1..] <==> row in b[1..]
      {
        if row in a[1..] {
          var i :| 0 <= i < |a[1..]| && a[1..][i] == row;
          assert a[i + 1] == row && row.id > a[0].id;
          assert row in b && row != b[0];
          var j :| 0 <= j < |b| && b[j] == row;
          assert b[1..][j - 1] == row;
        }
        if row in b[1..] {
          var j :| 0 <= j < |b[1..]| && b[1..][j] == row;
          assert b[j + 1] == row && row.id > b[0].id;
          assert row in a && row != a[0];
          var i :| 0 <= i < |a| && a[i] == row;
          assert a[1..][i - 1] == row;
        }
      }
      AscendingUnique(a[1..], b[1..]);
      assert a == [a[0]] + a[1..];
      assert b == [b[0]] + b[1..];
    } else if |a| > 0 {
      FirstIsMember(a);
      assert false;
    } else if |b| > 0 {
      FirstIsMember(b);
      assert false;
    }
  }
}
