/**
 * The daily-PnL journal: a `daily_entries` table with one row per date, a read
 * cache of whole months in front of it, the monthly summary the calendar view
 * shows, and the view's month navigation.
 */
module TradingJournal {
  import opened Base
  import opened Calendar
  import opened DateTable

  /** One `daily_entries` row apart from its date. */
  datatype DailyFigures = DailyFigures(pnl: real, gross: real, fees: real, notes: string)

  /** The entry an edit dialog starts from when the day has none: `DailyEntry(date, pnl=0.0)`. */
  const BlankDay := DailyFigures(0.0, 0.0, 0.0, "")

  /** A month of the cache, `f"{year}-{month:02d}"` in the source. */
  type MonthKey = (int, int)

  /** The journal's storage: the table and the per-month cache of query results. */
  class JournalRepository {
    /** The `daily_entries` rows in key order. */
    var entries: seq<Row<DailyFigures>>
    /** `_cache`: month to the list of that month's entries last read from the table. */
    var cache: map<MonthKey, seq<Row<DailyFigures>>>

    /** The table is keyed by date and every cached month is what a fresh query would return. */
    predicate Valid()
      reads this
    {
      && Sorted(entries)
      && forall k :: k in cache ==> cache[k] == InMonth(entries, k.0, k.1)
    }

    /** Opens an existing table with an empty cache. */
    constructor(rows: seq<Row<DailyFigures>>)
      requires Sorted(rows)
      ensures Valid()
      ensures entries == rows && cache == map[]
    {
      entries := rows;
      cache := map[];
    }

    /**
     * `get_monthly_pnl`: the cached list of the month when there is one, else the
     * month's rows read from the table, which are then cached. Either way the
     * result is the month's rows in date order.
     */
    method GetMonthlyPnl(year: int, month: int) returns (result: seq<Row<DailyFigures>>)
      requires Valid()
      modifies this
      ensures Valid()
      ensures result == InMonth(entries, year, month) && Sorted(result)
      ensures entries == old(entries)
      ensures cache == old(cache)[(year, month) := result]
    {
      if (year, month) in cache {
        result := cache[(year, month)];
        return;
      }
      result := InMonth(entries, year, month);
      cache := cache[(year, month) := result];
    }

    /**
     * `update_daily_pnl`: writes the day's row (replacing any earlier one) and
     * drops the cached list of that day's month; other months stay cached.
     */
    method UpdateDailyPnl(d: Date, pnl: real, gross: real, fees: real, notes: string)
      requires Valid()
      modifies this
      ensures Valid()
      ensures entries == Upsert(old(entries), d, DailyFigures(pnl, gross, fees, notes))
      ensures cache == old(cache) - {(d.year, d.month)}
    {
      var before := entries;
      entries := Upsert(entries, d, DailyFigures(pnl, gross, fees, notes));
      cache := cache - {(d.year, d.month)};
      forall k | k in cache
        ensures cache[k] == InMonth(entries, k.0, k.1)
      {
        UpsertOtherMonth(before, d, DailyFigures(pnl, gross, fees, notes), k.0, k.1);
      }
    }
  }

  /** The sum of the rows' PnL, `sum(entry.pnl for entry in entries)`. */
  function SumPnl(rows: seq<Row<DailyFigures>>): real {
    if rows == [] then 0.0 else rows[0].val.pnl + SumPnl(rows[1..])
  }

  /** The number of rows with a non-zero PnL. */
  function CountNonZero(rows: seq<Row<DailyFigures>>): (n: nat)
    ensures n <= |rows|
    ensures n == 0 <==> forall x :: x in rows ==> x.val.pnl == 0.0
  {
    if rows == [] then 0
    else
      assert forall x :: x in rows ==> x == rows[0] || x in rows[1..];
      (if rows[0].val.pnl != 0.0 then 1 else 0) + CountNonZero(rows[1..])
  }

  /** `{entry.date.day: entry for entry in entries}`: a later row with the same day wins. */
  function ByDay(rows: seq<Row<DailyFigures>>): (m: map<int, Row<DailyFigures>>)
    ensures forall x :: x in rows ==> x.date.day in m
    ensures forall k :: k in m ==> m[k] in rows && m[k].date.day == k
  {
    if rows == [] then map[]
    else
      var front := rows[..|rows| - 1];
      var last := rows[|rows| - 1];
      assert forall x :: x in rows ==> x in front || x == last;
      ByDay(front)[last.date.day := last]
  }

  /** The dictionary `get_monthly_summary` returns. */
  datatype MonthlySummary = MonthlySummary(
    totalPnl: real,
    entries: map<int, Row<DailyFigures>>,
    tradingDays: nat)

  /** Totals and counts split over a concatenation. */
  lemma {:induction false} SummaryAdditive(a: seq<Row<DailyFigures>>, b: seq<Row<DailyFigures>>)
    ensures SumPnl(a + b) == SumPnl(a) + SumPnl(b)
    ensures CountNonZero(a + b) == CountNonZero(a) + CountNonZero(b)
  {
    if a != [] {
      assert (a + b)[1..] == a[1..] + b;
      SummaryAdditive(a[1..], b);
    } else {
      assert a + b == b;
    }
  }

  /** The positions of the rows with a non-zero PnL. */
  function NonZeroPositions(rows: seq<Row<DailyFigures>>): set<int> {
    set i | 0 <= i < |rows| && rows[i].val.pnl != 0.0
  }

  /** `trading_days` is exactly the number of rows whose PnL is not zero. */
  lemma {:induction false} CountNonZeroCounts(rows: seq<Row<DailyFigures>>)
    ensures CountNonZero(rows) == |NonZeroPositions(rows)|
    decreases |rows|
  {
    if rows != [] {
      var front, last := rows[..|rows| - 1], rows[|rows| - 1];
      assert rows == front + [last];
      SummaryAdditive(front, [last]);
      CountNonZeroCounts(front);
      assert CountNonZero([last]) == if last.val.pnl != 0.0 then 1 else 0;
      var n := |front|;
      if last.val.pnl != 0.0 {
        assert NonZeroPositions(rows) == NonZeroPositions(front) + {n};
      } else {
        assert NonZeroPositions(rows) == NonZeroPositions(front);
      }
    }
  }

  /**
   * `get_monthly_summary` over the month's rows: the total of their PnL, the
   * rows by day of month and the number of rows with a non-zero PnL.
   */
  function Summarize(rows: seq<Row<DailyFigures>>): (s: MonthlySummary)
    ensures s.totalPnl == SumPnl(rows) && s.tradingDays == CountNonZero(rows)
    ensures s.tradingDays <= |rows|
    ensures forall x :: x in rows ==> x.date.day in s.entries
    ensures forall k :: k in s.entries ==> s.entries[k] in rows && s.entries[k].date.day == k
  {
    MonthlySummary(SumPnl(rows), ByDay(rows), CountNonZero(rows))
  }

  /** The journal service: summaries over the repository. */
  class JournalService {
    const repository: JournalRepository

    constructor(repo: JournalRepository)
      ensures repository == repo
    {
      repository := repo;
    }

    /** `get_monthly_summary`: the summary of the month's rows, read through the cache. */
    method GetMonthlySummary(year: int, month: int) returns (s: MonthlySummary)
      requires repository.Valid()
      modifies repository
      ensures repository.Valid()
      ensures repository.entries == old(repository.entries)
      ensures repository.cache == old(repository.cache)[(year, month) := InMonth(repository.entries, year, month)]
      ensures s == Summarize(InMonth(repository.entries, year, month))
    {
      var rows := repository.GetMonthlyPnl(year, month);
      s := Summarize(rows);
    }
  }

  /** `entries.get(date.day, DailyEntry(date=date, pnl=0.0))` of the edit dialog. */
  function DialogEntry(s: MonthlySummary, d: Date): DailyFigures {
    if d.day in s.entries then s.entries[d.day].val else BlankDay
  }

  /**
   * The edit dialog opens on the day's stored row, read through the month summary,
   * and on a zero entry when the day has none.
   */
  lemma DialogEntryIsStoredDay(rows: seq<Row<DailyFigures>>, d: Date)
    requires Sorted(rows)
    ensures DialogEntry(Summarize(InMonth(rows, d.year, d.month)), d) == Find(rows, d).GetOr(BlankDay)
  {
    var month := InMonth(rows, d.year, d.month);
    var s := Summarize(month);
    if d.day in s.entries {
      var x := s.entries[d.day];
      assert x in rows && x.date == d;
      SortedKeyUnique(rows, x, Row(d, Find(rows, d).value));
    } else {
      assert forall x :: x in rows ==> x.date != d;
    }
  }

  /** The PnL stored for a date, zero when the date has no row. */
  function StoredPnl(rows: seq<Row<DailyFigures>>, d: Date): real {
    match Find(rows, d)
    case Some(f) => f.pnl
    case None => 0.0
  }

  /**
   * Writing a day moves its month's total by the new PnL minus the PnL the day
   * held before (zero for a new day).
   */
  lemma {:induction false} MonthTotalAfterWrite(rows: seq<Row<DailyFigures>>, d: Date, f: DailyFigures)
    requires Sorted(rows)
    ensures SumPnl(InMonth(Upsert(rows, d, f), d.year, d.month)) ==
            SumPnl(InMonth(rows, d.year, d.month)) - StoredPnl(rows, d) + f.pnl
  {
    if rows == [] {
      assert InMonth([Row(d, f)], d.year, d.month) == [Row(d, f)];
    } else if rows[0].date == d {
      var r := [Row(d, f)] + rows[1..];
      assert r[1..] == rows[1..];
      assert InMonth(r, d.year, d.month) == [Row(d, f)] + InMonth(rows[1..], d.year, d.month);
      assert InMonth(rows, d.year, d.month) == [rows[0]] + InMonth(rows[1..], d.year, d.month);
    } else if Earlier(d, rows[0].date) {
      var r := [Row(d, f)] + rows;
      assert r[1..] == rows;
      assert InMonth(r, d.year, d.month) == [Row(d, f)] + InMonth(rows, d.year, d.month);
      assert forall x :: x in rows ==> x.date != d by {
        forall x | x in rows
          ensures x.date != d
        {
          var i :| 0 <= i < |rows| && rows[i] == x;
          assert i == 0 || Earlier(rows[0].date, rows[i].date);
        }
      }
    } else {
      var tail := Upsert(rows[1..], d, f);
      var r := [rows[0]] + tail;
      assert r[1..] == tail;
      MonthTotalAfterWrite(rows[1..], d, f);
      assert Find(rows, d) == Find(rows[1..], d);
    }
  }

  /** The colour of a PnL figure: green above zero, red below, `zeroColor` at zero. */
  function PnlColor(pnl: real, zeroColor: string): (c: string)
    requires zeroColor != "#00FF00" && zeroColor != "#FF4444"
    ensures pnl > 0.0 <==> c == "#00FF00"
    ensures pnl < 0.0 <==> c == "#FF4444"
    ensures pnl == 0.0 <==> c == zeroColor
  {
    if pnl > 0.0 then "#00FF00" else if pnl < 0.0 then "#FF4444" else zeroColor
  }

  const TotalZeroColor := "#888888"
  const DayZeroColor := "#666666"

  /** The calendar view: the month shown is the month of `currentDate`. */
  class TradingJournalWindow {
    var currentDate: Date

    constructor(today: Date)
      requires ValidDate(today)
      ensures currentDate == today
    {
      currentDate := today;
    }

    /**
     * `_prev_month`: moves to the same day of the previous month, carrying the
     * year in January. When that day does not exist `replace` raises, the
     * exception leaves the button handler and the view stays where it was.
     */
    method PrevMonthClicked() returns (ok: bool)
      requires ValidDate(currentDate)
      modifies this
      ensures ValidDate(currentDate)
      ensures ok <==> PrevMonth(old(currentDate)).Some?
      ensures ok ==> currentDate == PrevMonth(old(currentDate)).value
      ensures !ok ==> currentDate == old(currentDate)
    {
      var target := PrevMonth(currentDate);
      ok := target.Some?;
      if ok {
        currentDate := target.value;
      }
    }

    /** `_next_month`: the same day of the next month, carrying the year in December. */
    method NextMonthClicked() returns (ok: bool)
      requires ValidDate(currentDate)
      modifies this
      ensures ValidDate(currentDate)
      ensures ok <==> NextMonth(old(currentDate)).Some?
      ensures ok ==> currentDate == NextMonth(old(currentDate)).value
      ensures !ok ==> currentDate == old(currentDate)
    {
      var target := NextMonth(currentDate);
      ok := target.Some?;
      if ok {
        currentDate := target.value;
      }
    }
  }
}
