/**
 * A table keyed by a `date TEXT PRIMARY KEY` column, as the three SQLite tables of
 * the journals and the equity curve are. Rows are kept in key order, which is
 * the order of their `YYYY-MM-DD` text, so that `ORDER BY date`, "the latest row
 * before a date" and "the rows of one month" are plain functions of the rows.
 */
module DateTable {
  import opened Base
  import opened Calendar

  datatype Row<V> = Row(date: Date, val: V)

  /** Strictly increasing dates: the primary key holds each date at most once. */
  predicate Sorted<V>(rows: seq<Row<V>>) {
    forall i, j :: 0 <= i < j < |rows| ==> Earlier(rows[i].date, rows[j].date)
  }

  /** In a sorted table two rows with the same date are the same row. */
  lemma SortedKeyUnique<V>(rows: seq<Row<V>>, x: Row<V>, y: Row<V>)
    requires Sorted(rows) && x in rows && y in rows && x.date == y.date
    ensures x == y
  {
    var i :| 0 <= i < |rows| && rows[i] == x;
    var j :| 0 <= j < |rows| && rows[j] == y;
    assert i == j;
  }

  /** `SELECT ... WHERE date = ?`: the value stored under `d`, if any. */
  function Find<V>(rows: seq<Row<V>>, d: Date): (r: Option<V>)
    ensures r.None? <==> forall x :: x in rows ==> x.date != d
    ensures r.Some? ==> Row(d, r.value) in rows
  {
    if rows == [] then None
    else if rows[0].date == d then Some(rows[0].val)
    else
      var r := Find(rows[1..], d);
      assert forall x :: x in rows ==> x == rows[0] || x in rows[1..];
      r
  }

  /**
   * `INSERT OR REPLACE INTO ... (date, ...) VALUES (?, ...)`: the key order is
   * kept and no row appears but those of the table and the written one.
   */
  function Upsert<V>(rows: seq<Row<V>>, d: Date, v: V): (r: seq<Row<V>>)
    requires Sorted(rows)
    ensures Sorted(r)
    ensures forall x :: x in r ==> x in rows || x == Row(d, v)
  {
    if rows == [] then [Row(d, v)]
    else if rows[0].date == d then
      var r := [Row(d, v)] + rows[1..];
      assert r[1..] == rows[1..];
      r
    else if Earlier(d, rows[0].date) then
      var r := [Row(d, v)] + rows;
      assert r[1..] == rows;
      r
    else
      var tail := Upsert(rows[1..], d, v);
      var r := [rows[0]] + tail;
      assert r[1..] == tail;
      assert forall x :: x in rows[1..] ==> Earlier(rows[0].date, x.date);
      assert Earlier(rows[0].date, d);
      r
  }

  /**
   * `SELECT ... WHERE date < ? ORDER BY date DESC LIMIT 1`: the row with the
   * latest date strictly before `d`, or `None` when no row is earlier.
   */
  function LatestBefore<V>(rows: seq<Row<V>>, d: Date): (r: Option<Row<V>>)
    ensures r.Some? ==> r.value in rows && Earlier(r.value.date, d)
    ensures r.Some? ==> forall x :: x in rows && Earlier(x.date, d) ==> !Earlier(r.value.date, x.date)
    ensures r.None? ==> forall x :: x in rows ==> !Earlier(x.date, d)
  {
    if rows == [] then None
    else
      var front := rows[..|rows| - 1];
      var last := rows[|rows| - 1];
      assert forall x :: x in rows ==> x in front || x == last;
      var rest := LatestBefore(front, d);
      if Earlier(last.date, d) && (rest.None? || !Earlier(last.date, rest.value.date)) then Some(last)
      else rest
  }

  /** After an upsert `d` holds `v` and every other date holds what it held. */
  lemma {:induction false} UpsertFind<V>(rows: seq<Row<V>>, d: Date, v: V)
    requires Sorted(rows)
    ensures Find(Upsert(rows, d, v), d) == Some(v)
    ensures forall e :: e != d ==> Find(Upsert(rows, d, v), e) == Find(rows, e)
  {
    if rows == [] {
    } else if rows[0].date == d {
      assert Upsert(rows, d, v)[1..] == rows[1..];
    } else if Earlier(d, rows[0].date) {
      assert Upsert(rows, d, v)[1..] == rows;
    } else {
      assert Upsert(rows, d, v)[1..] == Upsert(rows[1..], d, v);
      UpsertFind(rows[1..], d, v);
    }
  }

  /** A date later than every row is appended at the end. */
  lemma {:induction false} UpsertAfterLast<V>(rows: seq<Row<V>>, d: Date, v: V)
    requires Sorted(rows)
    requires forall i :: 0 <= i < |rows| ==> Earlier(rows[i].date, d)
    ensures Upsert(rows, d, v) == rows + [Row(d, v)]
  {
    if rows != [] {
      assert rows[0].date != d && !Earlier(d, rows[0].date);
      assert Upsert(rows, d, v) == [rows[0]] + Upsert(rows[1..], d, v);
      UpsertAfterLast(rows[1..], d, v);
      assert [rows[0]] + (rows[1..] + [Row(d, v)]) == rows + [Row(d, v)];
    }
  }

  /** When every row is earlier than `d`, the latest row before `d` is the last row. */
  lemma LatestBeforeAfterLast<V>(rows: seq<Row<V>>, d: Date)
    requires Sorted(rows) && rows != []
    requires Earlier(rows[|rows| - 1].date, d)
    ensures LatestBefore(rows, d) == Some(rows[|rows| - 1])
  {
    var rest := LatestBefore(rows[..|rows| - 1], d);
    if rest.Some? {
      var k :| 0 <= k < |rows| - 1 && rows[..|rows| - 1][k] == rest.value;
      assert Earlier(rows[k].date, rows[|rows| - 1].date);
    }
  }

  /** The head of a sorted table followed by rows of its tail is sorted, if those rows are. */
  lemma SortedCons<V>(rows: seq<Row<V>>, tail: seq<Row<V>>)
    requires Sorted(rows) && rows != [] && Sorted(tail)
    requires forall x :: x in tail ==> x in rows[1..]
    ensures Sorted([rows[0]] + tail)
  {
    var r := [rows[0]] + tail;
    forall j | 1 <= j < |r|
      ensures Earlier(rows[0].date, r[j].date)
    {
      assert r[j] == tail[j - 1] && tail[j - 1] in tail;
      var k :| 0 <= k < |rows[1..]| && rows[1..][k] == tail[j - 1];
      assert rows[k + 1] == tail[j - 1];
    }
    assert r[1..] == tail;
  }

  /** `SELECT ... WHERE date LIKE 'YYYY-MM%' ORDER BY date`: the rows of one month, in order. */
  function InMonth<V>(rows: seq<Row<V>>, year: int, month: int): (r: seq<Row<V>>)
    ensures forall x :: x in r ==> x in rows && x.date.year == year && x.date.month == month
    ensures forall x :: x in rows && x.date.year == year && x.date.month == month ==> x in r
    ensures Sorted(rows) ==> Sorted(r)
  {
    if rows == [] then []
    else
      var tail := InMonth(rows[1..], year, month);
      assert rows == [rows[0]] + rows[1..];
      if rows[0].date.year == year && rows[0].date.month == month then
        var r := [rows[0]] + tail;
        assert Sorted(rows) ==> Sorted(r) by {
          if Sorted(rows) {
            assert forall x :: x in tail ==> x in rows[1..];
            SortedCons(rows, tail);
          }
        }
        r
      else tail
  }

  /** Writing a date of another month leaves a month's rows exactly as they were. */
  lemma {:induction false} UpsertOtherMonth<V>(rows: seq<Row<V>>, d: Date, v: V, year: int, month: int)
    requires Sorted(rows)
    requires d.year != year || d.month != month
    ensures InMonth(Upsert(rows, d, v), year, month) == InMonth(rows, year, month)
  {
    if rows == [] {
    } else if rows[0].date == d {
      assert ([Row(d, v)] + rows[1..])[1..] == rows[1..];
    } else if Earlier(d, rows[0].date) {
      assert ([Row(d, v)] + rows)[1..] == rows;
    } else {
      var tail := Upsert(rows[1..], d, v);
      assert ([rows[0]] + tail)[1..] == tail;
      UpsertOtherMonth(rows[1..], d, v, year, month);
    }
  }
}
