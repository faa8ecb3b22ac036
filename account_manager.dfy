/**
 * Account set-up and the equity curve: a starting balance kept in a config file
 * and an equity table with one row per trading day, each row holding the equity
 * after that day and the day's profit or loss.
 */
module AccountManager {
  import opened Base
  import opened Calendar
  import opened DateTable

  /** The balance used when none is configured, or when the configured one is zero. */
  const DefaultBalance: real := 10000.0

  /** One `equity_curve` row apart from its date: the equity after the day and the day's PnL. */
  datatype EquityFigures = EquityFigures(equity: real, pnl: real)

  /**
   * `get_starting_balance() or 10000.0`: a missing balance and a balance of zero
   * (both falsy in Python) fall back to the default.
   */
  function EffectiveBalance(configured: Option<real>): (b: real)
    ensures configured.Some? && configured.value != 0.0 ==> b == configured.value
    ensures configured.None? || configured.value == 0.0 ==> b == DefaultBalance
  {
    match configured
    case Some(x) => if x != 0.0 then x else DefaultBalance
    case None => DefaultBalance
  }

  /** The equity a new day starts from: that of the latest earlier row, else the starting balance. */
  function PrevEquity(curve: seq<Row<EquityFigures>>, d: Date, configured: Option<real>): real {
    match LatestBefore(curve, d)
    case Some(row) => row.val.equity
    case None => EffectiveBalance(configured)
  }

  /**
   * A new day starts from the starting balance when no row is earlier, and
   * otherwise from the equity of an earlier row that no other earlier row follows.
   */
  lemma PrevEquityIsLatestEarlier(curve: seq<Row<EquityFigures>>, d: Date, configured: Option<real>)
    ensures var e := PrevEquity(curve, d, configured);
      && ((forall x :: x in curve ==> !Earlier(x.date, d)) ==> e == EffectiveBalance(configured))
      && ((exists x :: x in curve && Earlier(x.date, d)) ==>
            exists x :: x in curve && Earlier(x.date, d) && e == x.val.equity &&
              forall y :: y in curve && Earlier(y.date, d) ==> !Earlier(x.date, y.date))
  {
  }

  /**
   * The curve after recording `pnl` for day `d`: the row for `d` gets the previous
   * day's equity plus `pnl`; no other row changes, later ones included.
   */
  function RecordEquity(curve: seq<Row<EquityFigures>>, configured: Option<real>, d: Date, pnl: real)
    : (r: seq<Row<EquityFigures>>)
    requires Sorted(curve)
    ensures Sorted(r)
  {
    Upsert(curve, d, EquityFigures(PrevEquity(curve, d, configured) + pnl, pnl))
  }

  /** The row for `d` holds the previous day's equity plus `pnl`; no other row changes, later ones included. */
  lemma RecordEquityWrites(curve: seq<Row<EquityFigures>>, configured: Option<real>, d: Date, pnl: real)
    requires Sorted(curve)
    ensures var r := RecordEquity(curve, configured, d, pnl);
      && Find(r, d) == Some(EquityFigures(PrevEquity(curve, d, configured) + pnl, pnl))
      && forall e :: e != d ==> Find(r, e) == Find(curve, e)
  {
    var v := EquityFigures(PrevEquity(curve, d, configured) + pnl, pnl);
    assert RecordEquity(curve, configured, d, pnl) == Upsert(curve, d, v);
    UpsertFind(curve, d, v);
  }

  /** `get_current_equity`: the equity of the latest row, or the starting balance when there is none. */
  function CurrentEquity(curve: seq<Row<EquityFigures>>, configured: Option<real>): real
  {
    if curve == [] then EffectiveBalance(configured) else curve[|curve| - 1].val.equity
  }

  /** The current equity is the starting balance for an empty curve, else the equity of its latest row. */
  lemma CurrentEquityIsLatest(curve: seq<Row<EquityFigures>>, configured: Option<real>)
    requires Sorted(curve)
    ensures var e := CurrentEquity(curve, configured);
      && (curve == [] ==> e == EffectiveBalance(configured))
      && (curve != [] ==>
            exists x :: x in curve && e == x.val.equity && (forall y :: y in curve ==> y == x || Earlier(y.date, x.date)))
  {
    if curve != [] {
      var last := curve[|curve| - 1];
      assert forall y :: y in curve ==> y == last || Earlier(y.date, last.date);
    }
  }

  /** With a non-empty curve and a later day, the day starts from the current equity. */
  lemma PrevEquityAfterLast(curve: seq<Row<EquityFigures>>, d: Date, configured: Option<real>)
    requires Sorted(curve)
    requires forall i :: 0 <= i < |curve| ==> Earlier(curve[i].date, d)
    ensures PrevEquity(curve, d, configured) == CurrentEquity(curve, configured)
  {
    if curve != [] {
      LatestBeforeAfterLast(curve, d);
    }
  }

  /**
   * Recording a day later than every recorded day moves the current equity by
   * exactly that day's PnL.
   */
  lemma RecordLatestDayAccumulates(curve: seq<Row<EquityFigures>>, configured: Option<real>, d: Date, pnl: real)
    requires Sorted(curve)
    requires forall i :: 0 <= i < |curve| ==> Earlier(curve[i].date, d)
    ensures CurrentEquity(RecordEquity(curve, configured, d, pnl), configured) ==
            CurrentEquity(curve, configured) + pnl
  {
    var e := PrevEquity(curve, d, configured);
    var r := curve + [Row(d, EquityFigures(e + pnl, pnl))];
    UpsertAfterLast(curve, d, EquityFigures(e + pnl, pnl));
    assert RecordEquity(curve, configured, d, pnl) == r;
    assert r[|r| - 1].val.equity == e + pnl;
    PrevEquityAfterLast(curve, d, configured);
  }

  /**
   * Re-recording an earlier day does not recompute the days after it: their
   * stored equity stays as it was. A curve of 10000 -50 +200 that then re-records
   * the first day as -100 shows 9900 on the first day and still 10150 on the second.
   */
  lemma BackdatedRecordLeavesLaterDays()
    ensures var d1, d2 := Date(2025, 1, 2), Date(2025, 1, 3);
      var c1 := RecordEquity([], Some(10000.0), d1, -50.0);
      var c2 := RecordEquity(c1, Some(10000.0), d2, 200.0);
      var c3 := RecordEquity(c2, Some(10000.0), d1, -100.0);
      && Find(c2, d2) == Some(EquityFigures(10150.0, 200.0))
      && Find(c3, d1) == Some(EquityFigures(9900.0, -100.0))
      && Find(c3, d2) == Some(EquityFigures(10150.0, 200.0))
  {
    var d1, d2 := Date(2025, 1, 2), Date(2025, 1, 3);
    var c1 := RecordEquity([], Some(10000.0), d1, -50.0);
    assert c1 == [Row(d1, EquityFigures(9950.0, -50.0))];
    assert LatestBefore(c1, d2) == Some(c1[0]);
    var c2 := RecordEquity(c1, Some(10000.0), d2, 200.0);
    assert Find(c2, d2) == Some(EquityFigures(10150.0, 200.0));
    assert LatestBefore(c2, d1) == None;
  }

  /** The account's persistent state: the config file and the `equity_curve` table. */
  class AccountRepository {
    /** `starting_balance` of `account_config.json`; `None` when the file or the key is missing. */
    var startingBalance: Option<real>
    /** The `equity_curve` rows in key order. */
    var equityCurve: seq<Row<EquityFigures>>

    predicate Valid()
      reads this
    {
      Sorted(equityCurve)
    }

    /** Opens the storage as it is found on disk. */
    constructor(configured: Option<real>, curve: seq<Row<EquityFigures>>)
      requires Sorted(curve)
      ensures Valid()
      ensures startingBalance == configured && equityCurve == curve
    {
      startingBalance := configured;
      equityCurve := curve;
    }

    function GetStartingBalance(): (b: Option<real>)
      reads this
      ensures b == startingBalance
    {
      startingBalance
    }

    /** Stores the new balance and deletes every equity row. */
    method SetStartingBalance(balance: real)
      modifies this
      ensures Valid()
      ensures startingBalance == Some(balance) && equityCurve == []
    {
      startingBalance := Some(balance);
      equityCurve := [];
    }

    /** `get_equity_curve`: every row, ordered by date. */
    function GetEquityCurve(): (curve: seq<Row<EquityFigures>>)
      requires Valid()
      reads this
      ensures Sorted(curve)
      ensures forall d :: Find(curve, d) == Find(equityCurve, d)
    {
      equityCurve
    }

    /** `update_equity`: records `pnl` for `d` on top of the previous day's equity. */
    method UpdateEquity(d: Date, pnl: real)
      requires Valid()
      modifies this
      ensures Valid()
      ensures startingBalance == old(startingBalance)
      ensures equityCurve == RecordEquity(old(equityCurve), startingBalance, d, pnl)
    {
      var base := EffectiveBalance(startingBalance);
      var prev := LatestBefore(equityCurve, d);
      var prevEquity := if prev.Some? then prev.value.val.equity else base;
      equityCurve := Upsert(equityCurve, d, EquityFigures(prevEquity + pnl, pnl));
    }
  }

  /** The account operations the windows call. */
  class AccountService {
    const repository: AccountRepository

    predicate Valid()
      reads this, repository
    {
      repository.Valid()
    }

    constructor(repo: AccountRepository)
      requires repo.Valid()
      ensures Valid() && repository == repo
    {
      repository := repo;
    }

    /** `setup_account`: a new starting balance and an empty curve. */
    method SetupAccount(balance: real)
      modifies repository
      ensures Valid()
      ensures repository.startingBalance == Some(balance) && repository.equityCurve == []
    {
      repository.SetStartingBalance(balance);
    }

    /** `get_current_equity`. */
    method GetCurrentEquity() returns (e: real)
      requires Valid()
      ensures e == CurrentEquity(repository.equityCurve, repository.startingBalance)
    {
      var curve := repository.GetEquityCurve();
      if curve == [] {
        e := EffectiveBalance(repository.GetStartingBalance());
      } else {
        e := curve[|curve| - 1].val.equity;
      }
    }

    /** `get_equity_data`: the curve for the chart, every row in date order. */
    method GetEquityData() returns (curve: seq<Row<EquityFigures>>)
      requires Valid()
      ensures Sorted(curve)
      ensures forall d :: Find(curve, d) == Find(repository.equityCurve, d)
    {
      curve := repository.GetEquityCurve();
    }
  }

  /** After set-up the current equity is the new balance, or the default for a balance of zero. */
  lemma EquityAfterSetup(balance: real)
    ensures CurrentEquity([], Some(balance)) == (if balance != 0.0 then balance else DefaultBalance)
  {
  }
}
