/** The list rule shared by the three GET endpoints (main.py:138-145,
    154-161, 170-177): an optional comma-separated `ids` parameter narrows the
    table to the listed primary keys unless some piece fails to parse, in
    which case the filter is dropped; then `offset(startIndex)` and
    `limit(batchSize)` cut one page out of the result. */
module Query {
  import opened Wrappers
  import opened Rows
  import opened PyInt

  /** Python's `s.split(sep)` with an explicit separator: the pieces between
      separators, empty pieces included, so there is always at least one. */
  function Split(s: string, sep: char): (r: seq<string>)
    ensures |r| >= 1
    ensures forall i :: 0 <= i < |r| ==> sep !in r[i]
    ensures Join(r, sep) == s
  {
    if |s| == 0 then [""]
    else
      var rest := Split(s[1..], sep);
      if s[0] == sep then
        var r := [""] + rest;
        assert r[1..] == rest;
        r
      else
        var r := [[s[0]] + rest[0]] + rest[1..];
        assert r[1..] == rest[1..];
        assert [s[0]] + Join(rest, sep) == s;
        r
  }

  /** `sep.join(pieces)`, the inverse of `Split`. */
  function Join(pieces: seq<string>, sep: char): (s: string)
    requires |pieces| >= 1
  {
    if |pieces| == 1 then pieces[0] else pieces[0] + [sep] + Join(pieces[1..], sep)
  }

  /** Splitting after one more character either opens a new piece or
      extends the first one. */
  lemma SplitCons(c: char, s: string, sep: char)
    ensures Split([c] + s, sep) ==
              if c == sep then [""] + Split(s, sep)
              else [[c] + Split(s, sep)[0]] + Split(s, sep)[1..]
  {
    assert ([c] + s)[1..] == s;
  }

  /** Joining pieces whose first piece is not empty starts with its first character. */
  lemma JoinHead(pieces: seq<string>, sep: char)
    requires |pieces| >= 1 && |pieces[0]| > 0
    ensures Join(pieces, sep) == [pieces[0][0]] + Join([pieces[0][1..]] + pieces[1..], sep)
  {
    var p := pieces[0];
    var shorter := [p[1..]] + pieces[1..];
    assert shorter[1..] == pieces[1..];
    assert p == [p[0]] + p[1..];
  }

  /** Splitting undoes joining pieces that hold no separator. */
  lemma {:induction false} SplitJoin(pieces: seq<string>, sep: char)
    requires |pieces| >= 1
    requires forall i :: 0 <= i < |pieces| ==> sep !in pieces[i]
    ensures Split(Join(pieces, sep), sep) == pieces
    decreases |pieces|, |pieces[0]|
  {
    var p := pieces[0];
    if |p| == 0 {
      if |pieces| > 1 {
        var tail := Join(pieces[1..], sep);
        assert Join(pieces, sep) == [sep] + tail;
        SplitCons(sep, tail, sep);
        SplitJoin(pieces[1..], sep);
        assert pieces == [""] + pieces[1..];
      }
    } else {
      var shorter := [p[1..]] + pieces[1..];
      assert shorter[0] == p[1..] && shorter[1..] == pieces[1..];
      assert p[0] != sep by {
        assert p[0] in p;
      }
      assert forall i :: 1 <= i < |shorter| ==> shorter[i] == pieces[i];
      assert sep !in p[1..] by {
        assert forall c :: c in p[1..] ==> c in p;
      }
      SplitJoin(shorter, sep);
      JoinHead(pieces, sep);
      SplitCons(p[0], Join(shorter, sep), sep);
      assert [p[0]] + p[1..] == p;
      assert pieces == [p] + pieces[1..];
    }
  }

  predicate AllParse(pieces: seq<string>) {
    forall i :: 0 <= i < |pieces| ==> ParseInt(pieces[i]).Some?
  }

  /** `[int(i) for i in pieces]`: `Some` list of values exactly when every
      piece parses, `None` as soon as one raises ValueError. */
  function ParseAll(pieces: seq<string>): (r: Option<seq<int>>)
    ensures r.Some? <==> AllParse(pieces)
    ensures r.Some? ==> |r.value| == |pieces|
    ensures r.Some? ==> forall i :: 0 <= i < |pieces| ==> ParseInt(pieces[i]) == Some(r.value[i])
  {
    if |pieces| == 0 then Some([])
    else
      match ParseInt(pieces[0])
      case None => None
      case Some(n) =>
        match ParseAll(pieces[1..])
        case None => None
        case Some(ns) =>
          assert forall i :: 1 <= i < |pieces| ==> pieces[i] == pieces[1..][i - 1];
          Some([n] + ns)
  }

  /** The list comprehension yields exactly the values of its pieces. */
  lemma ParseAllValues(pieces: seq<string>, values: seq<int>)
    requires |pieces| == |values|
    requires forall i :: 0 <= i < |pieces| ==> ParseInt(pieces[i]) == Some(values[i])
    ensures ParseAll(pieces) == Some(values)
  {
    var r := ParseAll(pieces);
    assert r.Some?;
    assert r.value == values;
  }

  /** The id list the `ids` parameter asks for, or `None` when no filter
      applies: the parameter is absent or empty (`if ids:` is false), or
      some comma-separated piece is not an integer. */
  function ParseFilter(ids: Option<string>): (r: Option<seq<int>>)
    ensures ids.None? || ids == Some("") ==> r.None?
    ensures r.Some? <==> ids.Some? && ids.value != "" && AllParse(Split(ids.value, ','))
    ensures r.Some? ==> |r.value| == |Split(ids.value, ',')|
    ensures r.Some? ==> forall i :: 0 <= i < |r.value| ==> ParseInt(Split(ids.value, ',')[i]) == Some(r.value[i])
  {
    if ids.None? || ids.value == "" then None
    else ParseAll(Split(ids.value, ','))
  }

  /** `query.filter(id.in_(ids))`: the rows whose key is listed, in their
      original order; listed keys with no row are simply absent. */
  function FilterById<T>(rows: seq<Row<T>>, ids: seq<int>): (r: seq<Row<T>>)
    ensures |r| <= |rows|
    ensures forall row :: row in r ==> row in rows && row.id in ids
    ensures forall row :: row in rows && row.id in ids ==> row in r
    ensures Ascending(rows) ==> Ascending(r)
  {
    if |rows| == 0 then []
    else
      var rest := FilterById(rows[1..], ids);
      assert forall row :: row in rows ==> row == rows[0] || row in rows[1..];
      assert forall row :: row in rows[1..] ==> row in rows;
      if rows[0].id in ids then
        var r := [rows[0]] + rest;
        assert forall row :: row in r ==> row == rows[0] || row in rest;
        assert r[0] in r;
        AscendingHead(rows);
        AscendingCons(rows[0], rest);
        r
      else
        AscendingHead(rows);
        rest
  }

  /** The position offset(startIndex) skips to.  A negative offset reads as
      zero, as SQLite, the default store (main.py:12), treats it. */
  function Offset(startIndex: int): nat {
    if startIndex < 0 then 0 else startIndex
  }

  /** How many of `n` rows lie at or after the offset. */
  function Remaining(n: nat, startIndex: int): nat {
    if Offset(startIndex) <= n then n - Offset(startIndex) else 0
  }

  /** `offset(startIndex).limit(batchSize)`: the longest run of consecutive
      rows from the offset that holds at most `batchSize` rows.  A negative
      limit reads as no limit, as in SQLite. */
  function Page<T>(rows: seq<Row<T>>, startIndex: int, batchSize: int): (r: seq<Row<T>>)
    ensures forall i :: 0 <= i < |r| ==> Offset(startIndex) + i < |rows| && r[i] == rows[Offset(startIndex) + i]
    ensures |r| <= Remaining(|rows|, startIndex)
    ensures batchSize >= 0 ==> |r| <= batchSize
    ensures |r| == Remaining(|rows|, startIndex) || |r| == batchSize
  {
    var lo := if Offset(startIndex) <= |rows| then Offset(startIndex) else |rows|;
    var hi := if batchSize < 0 || lo + batchSize > |rows| then |rows| else lo + batchSize;
    rows[lo..hi]
  }

  /** One page of a table, as the three list endpoints compute it: an
      absent, empty or malformed `ids` leaves the table unfiltered; a
      well-formed one keeps only listed keys, in table order. */
  function ListQuery<T>(rows: seq<Row<T>>, startIndex: int, batchSize: int, ids: Option<string>): (r: seq<Row<T>>)
    ensures ParseFilter(ids).None? ==> r == Page(rows, startIndex, batchSize)
    ensures ParseFilter(ids).Some? ==> r == Page(FilterById(rows, ParseFilter(ids).value), startIndex, batchSize)
    ensures forall row :: row in r ==> row in rows
    ensures ParseFilter(ids).Some? ==> forall row :: row in r ==> row.id in ParseFilter(ids).value
    ensures Ascending(rows) ==> Ascending(r)
    ensures batchSize >= 0 ==> |r| <= batchSize
    ensures |r| <= Remaining(|rows|, startIndex)
  {
    var filtered := match ParseFilter(ids)
      case Some(l) => FilterById(rows, l)
      case None => rows;
    var r := Page(filtered, startIndex, batchSize);
    assert forall row :: row in r ==> row in filtered;
    r
  }

  /** A malformed `ids` (some piece is not an integer) gives exactly the
      answer of a request without `ids`. */
  lemma MalformedIdsIgnored<T>(rows: seq<Row<T>>, startIndex: int, batchSize: int, ids: string, k: int)
    requires 0 <= k < |Split(ids, ',')| && ParseInt(Split(ids, ',')[k]).None?
    ensures ListQuery(rows, startIndex, batchSize, Some(ids)) == ListQuery(rows, startIndex, batchSize, None)
  {
  }

  /** Listing a key that has no row changes nothing: no error, no extra row. */
  lemma {:induction false} MissingIdIgnored<T>(rows: seq<Row<T>>, ids: seq<int>, missing: int)
    requires missing !in Ids(rows)
    ensures FilterById(rows, ids + [missing]) == FilterById(rows, ids)
  {
    if |rows| > 0 {
      assert rows[0] in rows;
      assert rows[0].id != missing;
      assert Ids(rows[1..]) <= Ids(rows) by {
        forall x | x in Ids(rows[1..])
          ensures x in Ids(rows)
        {
          var row :| row in rows[1..] && row.id == x;
          assert row in rows;
        }
      }
      MissingIdIgnored(rows[1..], ids, missing);
    }
  }

  /** Over a whole table, the filter returns exactly the listed keys that
      exist. */
  lemma FilterIds<T>(rows: seq<Row<T>>, ids: seq<int>)
    ensures Ids(FilterById(rows, ids)) == Ids(rows) * set x | x in ids
  {
    var r := FilterById(rows, ids);
    forall x | x in Ids(rows) * set x | x in ids
      ensures x in Ids(r)
    {
      var row :| row in rows && row.id == x;
      assert row in r;
    }
  }

  /** Two adjacent pages make up the page that spans both: pagination
      neither skips nor repeats a row at a page boundary. */
  lemma PagesConcatenate<T>(rows: seq<Row<T>>, startIndex: nat, size1: nat, size2: nat)
    ensures Page(rows, startIndex, size1) + Page(rows, startIndex + size1, size2)
         == Page(rows, startIndex, size1 + size2)
  {
    var a := Page(rows, startIndex, size1);
    var b := Page(rows, startIndex + size1, size2);
    var c := Page(rows, startIndex, size1 + size2);
    assert |a + b| == |c|;
    forall i | 0 <= i < |c|
      ensures (a + b)[i] == c[i]
    {
      if i >= |a| {
        assert |a| == size1;
      }
    }
  }

  /** The rows an orchestrator collects by paging from `startIndex` to the
      end with a fixed positive batch size. */
  function PageWalk<T>(rows: seq<Row<T>>, startIndex: nat, batchSize: nat): (r: seq<Row<T>>)
    requires batchSize > 0
    decreases |rows| - startIndex
  {
    if startIndex >= |rows| then []
    else Page(rows, startIndex, batchSize) + PageWalk(rows, startIndex + batchSize, batchSize)
  }

  /** Paging through a list with any positive batch size yields every row
      from the start position exactly once, in order. */
  lemma {:induction false} PageWalkCovers<T>(rows: seq<Row<T>>, startIndex: nat, batchSize: nat)
    requires batchSize > 0 && startIndex <= |rows|
    ensures PageWalk(rows, startIndex, batchSize) == rows[startIndex..]
    decreases |rows| - startIndex
  {
    if startIndex < |rows| {
      if startIndex + batchSize <= |rows| {
        PageWalkCovers(rows, startIndex + batchSize, batchSize);
        FullPage(rows, startIndex, batchSize);
      } else {
        LastPage(rows, startIndex, batchSize);
      }
    }
  }

  lemma FullPage<T>(rows: seq<Row<T>>, startIndex: nat, batchSize: nat)
    requires startIndex + batchSize <= |rows|
    ensures Page(rows, startIndex, batchSize) + rows[startIndex + batchSize..] == rows[startIndex..]
  {
    assert Page(rows, startIndex, batchSize) == rows[startIndex..startIndex + batchSize];
  }

  lemma LastPage<T>(rows: seq<Row<T>>, startIndex: nat, batchSize: nat)
    requires batchSize > 0 && startIndex < |rows| < startIndex + batchSize
    ensures PageWalk(rows, startIndex, batchSize) == rows[startIndex..]
  {
    assert Page(rows, startIndex, batchSize) == rows[startIndex..];
    assert PageWalk(rows, startIndex + batchSize, batchSize) == [];
  }
}
