/**
 * The enhanced journal: a `trade_entries` table with one trade record per date,
 * the chart-image file name, the risk/reward figure of the trade dialog, the
 * dialog's save sequence (trade row first, then the equity curve), and the
 * month view's labels and navigation.
 */
module EnhancedJournal {
  import opened Base
  import opened Strings
  import opened Calendar
  import opened DateTable
  import opened AccountManager
  import TradingJournal

  /** One `trade_entries` row apart from its date. */
  datatype TradeDetails = TradeDetails(
    pnl: real,
    entryPrice: real,
    stopLoss: real,
    takeProfit: real,
    riskReward: real,
    notes: string,
    chartImage: string)

  /** `TradeEntry(date=date, pnl=0.0)`: what the dialog shows for a day without a trade. */
  const BlankTrade := TradeDetails(0.0, 0.0, 0.0, 0.0, 0.0, "", "")

  const ImagesDir := "journal_images"

  /** The trade store. */
  class EnhancedJournalRepository {
    /** The `trade_entries` rows in key order. */
    var trades: seq<Row<TradeDetails>>

    predicate Valid()
      reads this
    {
      Sorted(trades)
    }

    constructor(rows: seq<Row<TradeDetails>>)
      requires Sorted(rows)
      ensures Valid() && trades == rows
    {
      trades := rows;
    }

    /** `get_trade_entry`: the trade stored for `d`, or `None`. */
    function GetTradeEntry(d: Date): (r: Option<TradeDetails>)
      reads this
      ensures r.None? <==> forall x :: x in trades ==> x.date != d
      ensures r.Some? ==> Row(d, r.value) in trades
    {
      Find(trades, d)
    }

    /** `save_trade_entry`: stores `e` under `d`, replacing what `d` held. */
    method SaveTradeEntry(d: Date, e: TradeDetails)
      requires Valid()
      modifies this
      ensures Valid()
      ensures trades == Upsert(old(trades), d, e)
    {
      trades := Upsert(trades, d, e);
    }
  }

  /** Saving then reading the same date gives the saved trade; every other date reads as before. */
  lemma SaveThenGet(rows: seq<Row<TradeDetails>>, d: Date, e: TradeDetails, other: Date)
    requires Sorted(rows) && other != d
    ensures Find(Upsert(rows, d, e), d) == Some(e)
    ensures Find(Upsert(rows, d, e), other) == Find(rows, other)
  {
    UpsertFind(rows, d, e);
  }

  /**
   * The name `save_chart_image` gives the copy of a chart: `""` when the source
   * file does not exist, otherwise `journal_images/YYYY-MM-DD_chart` followed by
   * the source's extension.
   */
  function ChartDestination(d: Date, imagePath: string, fileExists: bool): (r: string)
    requires ValidDate(d)
    ensures !fileExists ==> r == ""
    ensures fileExists ==> r == ImagesDir + "/" + DateIso(d) + "_chart" + SplitExt(imagePath)
  {
    if !fileExists then ""
    else
      var ext := SplitExt(imagePath);
      ImagesDir + "/" + DateIso(d) + "_chart" + ext
  }

  /** A chart `dir/name.ext` is stored as `journal_images/YYYY-MM-DD_chart.ext`. */
  lemma ChartDestinationKeepsExtension(d: Date, dir: string, stem: string, ext: string)
    requires ValidDate(d)
    requires stem != [] && stem[0] != '.' && '/' !in stem
    requires '.' !in ext && '/' !in ext
    ensures ChartDestination(d, dir + "/" + stem + "." + ext, true) ==
            ImagesDir + "/" + DateIso(d) + "_chart." + ext
  {
    SplitExtOfFileName(dir, stem, ext);
  }

  /**
   * Charts of two different days never share a file name, so a chart is only
   * ever overwritten by a later chart of the same day.
   */
  lemma ChartDestinationsOfDaysDiffer(d1: Date, d2: Date, p1: string, p2: string)
    requires ValidDate(d1) && ValidDate(d2) && d1 != d2
    ensures ChartDestination(d1, p1, true) != ChartDestination(d2, p2, true)
  {
    ChartDestinationDatePart(d1, p1);
    ChartDestinationDatePart(d2, p2);
    DateIsoInjective(d1, d2);
  }

  /** The date sits right after `journal_images/` in a chart's file name. */
  lemma ChartDestinationDatePart(d: Date, p: string)
    requires ValidDate(d)
    ensures var r := ChartDestination(d, p, true);
      |r| >= |ImagesDir| + 11 && r[|ImagesDir| + 1..|ImagesDir| + 11] == DateIso(d)
  {
    var a := ImagesDir + "/";
    var r := ChartDestination(d, p, true);
    assert r == a + DateIso(d) + ("_chart" + SplitExt(p));
    assert |a| == |ImagesDir| + 1;
  }

  /** The text of one entry field: empty, a number, or text `float()` rejects. */
  datatype FieldText = Empty | Number(x: real) | Malformed

  /** `float(text or "0")`: an empty field reads as zero; `None` where `float` raises. */
  function ParseAmount(t: FieldText): (r: Option<real>)
    ensures r.None? <==> t.Malformed?
    ensures t.Empty? ==> r == Some(0.0)
  {
    match t
    case Empty => Some(0.0)
    case Number(x) => Some(x)
    case Malformed => None
  }

  /**
   * `_calculate_rr`: reward over risk, `|target - entry| / |entry - stop|`, when
   * all three prices read as positive numbers and the risk is not zero; zero
   * otherwise, a field that does not parse included.
   */
  function RiskReward(entryText: FieldText, stopText: FieldText, targetText: FieldText): (rr: real)
    ensures rr >= 0.0
    ensures
      var e, s, t := ParseAmount(entryText), ParseAmount(stopText), ParseAmount(targetText);
      if e.Some? && s.Some? && t.Some? && e.value > 0.0 && s.value > 0.0 && t.value > 0.0 && e.value != s.value
      then rr * Abs(e.value - s.value) == Abs(t.value - e.value)
      else rr == 0.0
  {
    var e, s, t := ParseAmount(entryText), ParseAmount(stopText), ParseAmount(targetText);
    if e.Some? && s.Some? && t.Some? && e.value > 0.0 && s.value > 0.0 && t.value > 0.0 then
      var risk := Abs(e.value - s.value);
      var reward := Abs(t.value - e.value);
      if risk > 0.0 then reward / risk else 0.0
    else 0.0
  }

  /** What the trade dialog holds when Save is pressed. */
  datatype TradeForm = TradeForm(
    entryPrice: FieldText,
    stopLoss: FieldText,
    takeProfit: FieldText,
    pnl: FieldText,
    imagePath: string)

  /**
   * The `TradeEntry` `_save_entry` builds, or `None` when one of the four
   * numbers does not parse (the dialog then reports the error and saves
   * nothing). The new entry carries no notes, and a chart only when an image
   * was attached in this dialog.
   */
  function FormEntry(form: TradeForm, d: Date, imageExists: bool): (r: Option<TradeDetails>)
    requires ValidDate(d)
    ensures r.Some? <==>
      ParseAmount(form.pnl).Some? && ParseAmount(form.entryPrice).Some? &&
      ParseAmount(form.stopLoss).Some? && ParseAmount(form.takeProfit).Some?
    ensures r.Some? ==>
      && r.value.pnl == ParseAmount(form.pnl).value
      && r.value.entryPrice == ParseAmount(form.entryPrice).value
      && r.value.stopLoss == ParseAmount(form.stopLoss).value
      && r.value.takeProfit == ParseAmount(form.takeProfit).value
      && r.value.riskReward == RiskReward(form.entryPrice, form.stopLoss, form.takeProfit)
      && r.value.riskReward >= 0.0
      && r.value.notes == ""
      && r.value.chartImage == (if form.imagePath == [] then "" else ChartDestination(d, form.imagePath, imageExists))
  {
    var rr := RiskReward(form.entryPrice, form.stopLoss, form.takeProfit);
    match (ParseAmount(form.pnl), ParseAmount(form.entryPrice), ParseAmount(form.stopLoss), ParseAmount(form.takeProfit))
    case (Some(pnl), Some(entry), Some(stop), Some(target)) =>
      var chart := if form.imagePath == [] then "" else ChartDestination(d, form.imagePath, imageExists);
      Some(TradeDetails(pnl, entry, stop, target, rr, "", chart))
    case _ => None
  }

  /**
   * Saving again without attaching a new image forgets the stored chart and
   * the stored notes: the dialog starts every save from an empty image path
   * and never carries notes over.
   */
  lemma ResaveDropsChartAndNotes(form: TradeForm, d: Date, imageExists: bool)
    requires ValidDate(d) && form.imagePath == []
    requires FormEntry(form, d, imageExists).Some?
    ensures FormEntry(form, d, imageExists).value.chartImage == ""
    ensures FormEntry(form, d, imageExists).value.notes == ""
  {
  }

  /** The trade dialog of one day. */
  class EnhancedTradeDialog {
    const date: Date
    const repository: EnhancedJournalRepository
    const account: AccountRepository
    /** The entry the dialog's fields start from. */
    const entry: TradeDetails

    /** `repository.get_trade_entry(date) or TradeEntry(date=date, pnl=0.0)`. */
    constructor(d: Date, repo: EnhancedJournalRepository, acct: AccountRepository)
      ensures date == d && repository == repo && account == acct
      ensures entry == repo.GetTradeEntry(d).GetOr(BlankTrade)
    {
      date := d;
      repository := repo;
      account := acct;
      entry := repo.GetTradeEntry(d).GetOr(BlankTrade);
    }

    /**
     * `_save_entry`: builds the entry, stores it under the dialog's date, then
     * records its PnL for the same date on the equity curve. A field that does
     * not parse stops it before either write.
     */
    method SaveEntry(form: TradeForm, imageExists: bool) returns (saved: bool)
      requires ValidDate(date) && repository.Valid() && account.Valid()
      modifies repository, account
      ensures repository.Valid() && account.Valid()
      ensures saved <==> FormEntry(form, date, imageExists).Some?
      ensures saved ==>
        var e := FormEntry(form, date, imageExists).value;
        && repository.trades == Upsert(old(repository.trades), date, e)
        && account.equityCurve == RecordEquity(old(account.equityCurve), old(account.startingBalance), date, e.pnl)
      ensures !saved ==> repository.trades == old(repository.trades) && account.equityCurve == old(account.equityCurve)
      ensures account.startingBalance == old(account.startingBalance)
    {
      var e := FormEntry(form, date, imageExists);
      if e.None? {
        return false;
      }
      repository.SaveTradeEntry(date, e.value);
      account.UpdateEquity(date, e.value.pnl);
      saved := true;
    }
  }

  /** A day cell's label in the month view: the day and the colour of its PnL. */
  datatype DayLabel = DayLabel(day: int, pnl: real, color: string)

  /**
   * The labels of days `day` to 31 of a month, stopping at the first day the
   * month does not have: one per day whose stored trade has a non-zero PnL,
   * green for a gain and red for a loss.
   */
  function MonthLabels(trades: seq<Row<TradeDetails>>, y: int, m: int, day: int): seq<DayLabel>
    decreases 32 - day
  {
    if day >= 32 || !ValidDate(Date(y, m, day)) then []
    else
      var found := Find(trades, Date(y, m, day));
      var cell := if found.Some? && found.value.pnl != 0.0
        then [DayLabel(day, found.value.pnl, TradingJournal.PnlColor(found.value.pnl, TradingJournal.DayZeroColor))]
        else [];
      cell + MonthLabels(trades, y, m, day + 1)
  }

  /**
   * Each label is a day of the month, at or after `day`, whose stored trade
   * has that non-zero PnL, coloured green for a gain and red for a loss.
   */
  lemma {:induction false} MonthLabelsMatch(trades: seq<Row<TradeDetails>>, y: int, m: int, day: int)
    ensures forall l :: l in MonthLabels(trades, y, m, day) ==>
      var d := Date(y, m, l.day);
      && day <= l.day && ValidDate(d)
      && Find(trades, d).Some? && l.pnl == Find(trades, d).value.pnl && l.pnl != 0.0
      && l.color == (if l.pnl > 0.0 then "#00FF00" else "#FF4444")
    decreases 32 - day
  {
    if day < 32 && ValidDate(Date(y, m, day)) {
      MonthLabelsMatch(trades, y, m, day + 1);
    }
  }

  /** Strictly increasing day order. */
  predicate DaysAscending(ls: seq<DayLabel>) {
    forall i, j :: 0 <= i < j < |ls| ==> ls[i].day < ls[j].day
  }

  lemma AscendingCons(l: DayLabel, rest: seq<DayLabel>)
    requires DaysAscending(rest)
    requires forall x :: x in rest ==> l.day < x.day
    ensures DaysAscending([l] + rest)
  {
    var ls := [l] + rest;
    forall i, j | 0 <= i < j < |ls|
      ensures ls[i].day < ls[j].day
    {
      assert ls[j] == rest[j - 1] && rest[j - 1] in rest;
      if i > 0 {
        assert ls[i] == rest[i - 1];
      }
    }
  }

  /** The labels are in strictly increasing day order. */
  lemma {:induction false} MonthLabelsOrdered(trades: seq<Row<TradeDetails>>, y: int, m: int, day: int)
    ensures DaysAscending(MonthLabels(trades, y, m, day))
    decreases 32 - day
  {
    if day < 32 && ValidDate(Date(y, m, day)) {
      MonthLabelsOrdered(trades, y, m, day + 1);
      MonthLabelsMatch(trades, y, m, day + 1);
      var found := Find(trades, Date(y, m, day));
      var rest := MonthLabels(trades, y, m, day + 1);
      if found.Some? && found.value.pnl != 0.0 {
        AscendingCons(MonthLabels(trades, y, m, day)[0], rest);
      }
    }
  }

  /** Every day of the month from `day` on whose stored trade has a non-zero PnL gets a label. */
  lemma {:induction false} MonthLabelsComplete(trades: seq<Row<TradeDetails>>, y: int, m: int, day: int, k: int)
    requires 1 <= day <= k && ValidDate(Date(y, m, k))
    requires Find(trades, Date(y, m, k)).Some? && Find(trades, Date(y, m, k)).value.pnl != 0.0
    ensures exists l :: l in MonthLabels(trades, y, m, day) && l.day == k
    decreases k - day
  {
    assert ValidDate(Date(y, m, day)) && day < 32;
    var found := Find(trades, Date(y, m, day));
    var cell := if found.Some? && found.value.pnl != 0.0
      then [DayLabel(day, found.value.pnl, TradingJournal.PnlColor(found.value.pnl, TradingJournal.DayZeroColor))]
      else [];
    var rest := MonthLabels(trades, y, m, day + 1);
    assert MonthLabels(trades, y, m, day) == cell + rest;
    if day < k {
      MonthLabelsComplete(trades, y, m, day + 1, k);
      var l :| l in rest && l.day == k;
      assert l in cell + rest;
    } else {
      assert cell[0] in cell + rest;
    }
  }

  /** The enhanced calendar view. */
  class EnhancedJournalWindow {
    var currentDate: Date
    const repository: EnhancedJournalRepository

    constructor(today: Date, repo: EnhancedJournalRepository)
      requires ValidDate(today)
      ensures currentDate == today && repository == repo
    {
      currentDate := today;
      repository := repo;
    }

    /**
     * `_load_month_data`: tries days 1 to 31 of the shown month, stops at the
     * first day the month does not have, and labels each day whose stored trade
     * has a non-zero PnL.
     */
    method LoadMonthData() returns (labels: seq<DayLabel>)
      ensures labels == MonthLabels(repository.trades, currentDate.year, currentDate.month, 1)
    {
      var y, m := currentDate.year, currentDate.month;
      labels := [];
      var day := 1;
      while day < 32
        invariant 1 <= day <= 32
        invariant labels + MonthLabels(repository.trades, y, m, day) == MonthLabels(repository.trades, y, m, 1)
      {
        var cellDate := Date(y, m, day);
        if !ValidDate(cellDate) {
          assert labels + [] == labels;
          break;
        }
        var found := repository.GetTradeEntry(cellDate);
        var cell := if found.Some? && found.value.pnl != 0.0
          then [DayLabel(day, found.value.pnl, TradingJournal.PnlColor(found.value.pnl, TradingJournal.DayZeroColor))]
          else [];
        assert MonthLabels(repository.trades, y, m, day) == cell + MonthLabels(repository.trades, y, m, day + 1);
        AppendRegroup(labels, cell, MonthLabels(repository.trades, y, m, day + 1));
        labels := labels + cell;
        day := day + 1;
      }
    }

    /** `_prev_month`, as in the daily journal: the view stays put when `replace` raises. */
    method PrevMonthClicked() returns (ok: bool)
      requires ValidDate(currentDate)
      modifies this
      ensures ValidDate(currentDate)
      ensures ok <==> PrevMonth(old(currentDate)).Some?
      ensures ok ==> currentDate == PrevMonth(old(currentDate)).value
      ensures !ok ==> currentDate == old(currentDate)
    {
      var target := PrevMonth(currentDate);
      ok := target.Some?;
      if ok {
        currentDate := target.value;
      }
    }

    /** `_next_month`, as in the daily journal. */
    method NextMonthClicked() returns (ok: bool)
      requires ValidDate(currentDate)
      modifies this
      ensures ValidDate(currentDate)
      ensures ok <==> NextMonth(old(currentDate)).Some?
      ensures ok ==> currentDate == NextMonth(old(currentDate)).value
      ensures !ok ==> currentDate == old(currentDate)
    {
      var target := NextMonth(currentDate);
      ok := target.Some?;
      if ok {
        currentDate := target.value;
      }
    }
  }
}
