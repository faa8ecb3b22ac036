# PropFire core, modelled in Dafny

PropFire is a desktop countdown timer for prop-firm traders. Around a news release, a prop firm
forbids trading for a few minutes before and after it. The timer shows how long until trading is
allowed again, and gives the reason. The release comes from an economic-calendar feed. A daily
journal, a trade journal and an equity curve sit beside the timer.

The model covers the logic under the windows:

- **`PropFire`** (`prop_fire.py`):
  - the prop-firm and session tables of `setup_data`;
  - the inclusive session tests, which do not wrap past midnight;
  - `calculate_next_trade_time` and `get_next_session_start`, over instants in whole seconds, failing where `datetime` arithmetic leaves years 1..9999;
  - the `HH:MM:SS` countdown of `update_timer`, its colour band, and the news line;
  - the state `fetch_live_news` leaves behind;
  - the seven-day sample list of `generate_mock_news`.

  The window is a class. Its fields are the fetched event, the error message and the three lines it
  shows.
- **`NewsApi`** (`news_api.py`):
  - the per-record filter of the calendar feed: currency ignoring case, impact exactly `High`, a
    non-empty date that parses, and strictly in the future;
  - the ISO or date-only date parse;
  - the stable sort by time;
  - the 300-second cache keyed by currency and today's date.

  The client is a class whose one field is the cache. On a cache hit, `fetch_high_impact_events`
  returns the whole cached list. On a miss, it returns the earliest new event. `FetchResult` keeps
  both shapes, as the code has them.
- **`AccountManager`** (`account_manager.py`): the starting balance and the equity curve. One row per
  day holds the equity after that day. A new day starts from the latest earlier row, or from the
  starting balance (10000 when it is unset or zero). Later rows are never recomputed.
- **`TradingJournal`** (`trading_journal.py`):
  - the daily-PnL table with its per-month read cache;
  - the monthly summary;
  - the edit dialog's default entry;
  - month navigation.
- **`EnhancedJournal`** (`enhanced_journal.py`):
  - the trade table;
  - the chart file name;
  - the risk/reward figure;
  - the dialog's save sequence: the trade row, then the equity curve;
  - the month view's day labels;
  - month navigation.

Four supporting modules:

- **`DateTable`**: a table keyed by `date TEXT PRIMARY KEY`. Its rows are kept in key order, so
  `ORDER BY date`, "latest row before a date" and "rows of one month" are plain functions.
- **`Calendar`**: proleptic Gregorian dates with day numbers, weekdays, the `%Y-%m-%d` and `%H:%M`
  formats in both directions, and `date.replace` onto the previous or next month.
- **`Strings`**: splitting, ASCII upper-casing, digits and `os.path.splitext`.
- **`Base`**: `Option` and `Abs`.

Several readings are parameters of the operations that use them: the clock (`datetime.now()` and
`time.time()`), the decoded feed (or its failure), and whether a file exists. SQLite tables and JSON
files are fields holding their rows.

## Model

| member | source | states |
|---|---|---|
| PropFire.PropFirmsNonNegative | prop_fire.py:560-565 | Every firm in the table restricts a non-negative number of minutes before and after a release |
| PropFire.TimeOfDay | prop_fire.py:389 | The time of day of a stamp lies in [0, 86400) and is a whole minute |
| PropFire.IsInSession | prop_fire.py:383-389 | Defined exactly when the session is in the table and both bounds parse; then true iff start <= time of day <= end, both ends included, no midnight wrap |
| PropFire.IsInSessionTime | prop_fire.py:391-400 | True iff the text, the session lookup and both bounds parse and start <= time <= end; false on any failure |
| PropFire.SessionTestsAgree | prop_fire.py:383-400 | The text test on a stamp's `HH:MM` agrees with the stamp test |
| PropFire.FirstStartAfter | prop_fire.py:435-444 | The result has the session's time of day and lies in (now, now + 24h] |
| PropFire.FirstStartAfterIsFirst | prop_fire.py:438-444 | No instant with that time of day lies strictly between now and the result |
| PropFire.NextSessionStart | prop_fire.py:429-444 | Defined iff the session exists, its start parses and the start found is before the end of 9999-12-31; then it is the first start strictly after now |
| PropFire.SessionStartOverflows | prop_fire.py:438-444 | For a representable now, the start overflows exactly when the day's start has passed on 9999-12-31, where `now + timedelta(days=1)` raises |
| PropFire.BlockWindow | prop_fire.py:413-414 | The window spans (before + after) minutes; with non-negative rules the release lies inside it |
| PropFire.NextTradeTime | prop_fire.py:402-427 | The target is a representable instant, never before now, and equals now only at the last second of a restriction; its cases are those of `NextTradeTimeCases` |
| PropFire.NextTradeTimeCases | prop_fire.py:402-427 | Unknown firm, or a window end outside 0001-01-01 to 9999-12-31 (OverflowError): fails. Before the window: its start, "blocked before". Inside it, end included: its end, "restriction to end". After it, or with no event: the next session start |
| PropFire.ReleaseIsBlocked | prop_fire.py:413-421 | With the firms of the table, the calculation fails only when the window leaves the `datetime` range; otherwise, until the release, the status names it (blocked before, or waiting for it to end) |
| PropFire.LastMinuteReleaseFails | prop_fire.py:413-414 | A release at 9999-12-31 23:59 overflows the window end for every firm of the table, at any now |
| PropFire.SplitSeconds | prop_fire.py:460-461 | h*3600 + m*60 + s equals the total, with m < 60 and s < 60 |
| PropFire.TimerText | prop_fire.py:460-462 | The `HH:MM:SS` text reads back as the number of seconds it was made from |
| PropFire.TimerFields | prop_fire.py:462 | Reads hour, minute and second fields back iff they are digits (minutes and seconds exactly two); the value is their weighted sum |
| PropFire.ReadTimerOfFields | prop_fire.py:462 | Digit fields joined by colons read back as hours, minutes and seconds |
| PropFire.ReadTimer | prop_fire.py:462 | Only a text with a colon reads as a countdown |
| PropFire.TimerColor | prop_fire.py:465-470 | Red iff the gap is under 300 s, amber iff it is in [300, 900), green iff it is 900 s or more |
| PropFire.TimerLines | prop_fire.py:459-476 | For a positive gap: colour band and reason text. Otherwise: "TRADE NOW" in green and "Session Active - No Restrictions" |
| PropFire.TimerLinesCountDown | prop_fire.py:459-462 | For a positive gap the timer text reads back as the gap |
| PropFire.ShowTarget | prop_fire.py:453-493 | The lines for a computed target; its contract is stated by `ShowTargetReads` and `ShowTargetCountsDown` |
| PropFire.Tick | prop_fire.py:446-493 | One tick: `ShowTarget` of `NextTradeTime` at now; what it shows follows from the contracts of the two |
| PropFire.ShowTargetReads | prop_fire.py:474-493 | No target: "ERROR" and "Calculation error", news line untouched. A target not in the future: "TRADE NOW". Any target: the news line of the fetched state |
| PropFire.ShowTargetCountsDown | prop_fire.py:459-473 | Before the target, the timer reads back as the seconds left, is coloured by them, and the status gives the reason |
| PropFire.FetchState | prop_fire.py:350-366 | A new event is kept and the error cleared; nothing, or an empty list, clears both; a non-empty cached list leaves no event and the error message from indexing a list by `'title'` |
| PropFire.NewsLabel | prop_fire.py:478-485 | The news line is white for an event, amber for a network error, grey for no news |
| PropFire.CountdownWindow.constructor | prop_fire.py:212-223 | Requires the chosen firm to be in the table, since the widget set-up's lookup raises KeyError otherwise (prop_fire.py:297); the window starts with no event, no error, an empty cache and the initial lines "00:00:00" in green, "Calculating..." and "No upcoming news" (prop_fire.py:275-308) |
| PropFire.CountdownWindow.FetchLiveNews | prop_fire.py:347-366 | The cache and the fetched state become those of `FetchOutcome` for the chosen currency, then `FetchState`; the shown lines are unchanged |
| PropFire.CountdownWindow.GetNextNewsEvent | prop_fire.py:372-381 | An event exactly when one was fetched, with its time, its title and the chosen currency |
| PropFire.CountdownWindow.UpdateTimer | prop_fire.py:446-493 | The shown lines become those of one tick for the current event; the fetched state is unchanged |
| PropFire.MockDay | prop_fire.py:594-602 | One event per sample on the day, in sample order, each with the day's ISO date |
| PropFire.MockSchedule | prop_fire.py:592-603 | The events of the first n days, None where a date overflows; its length and dates are stated by `MockScheduleLength`, `MockScheduleOnWorkDays` and `MockNewsHasTwentyFive` |
| PropFire.DayEvents | prop_fire.py:595 | Every sample on a weekday, none on a weekend; every event carries that day's date |
| PropFire.ScheduleSizeScales | prop_fire.py:592-602 | The event count is the samples-per-day times the number of working days |
| PropFire.WeekHasFiveWorkDays | prop_fire.py:592-595 | Any seven consecutive days hold exactly five Monday-to-Friday days |
| PropFire.MockScheduleStep | prop_fire.py:592-593 | The schedule of m + 1 days is that of m days followed by the events of day m |
| PropFire.MockScheduleLength | prop_fire.py:592-602 | The schedule holds each sample once per working day |
| PropFire.MockScheduleOnWorkDays | prop_fire.py:595-597 | Every generated event is dated on a Monday-to-Friday day of the period |
| PropFire.MockNewsHasTwentyFive | prop_fire.py:577-604 | The sample list always has 25 events |
| PropFire.GenerateMockNews | prop_fire.py:577-604 | The result is the seven-day schedule of the five samples |
| PropFire.PlaceSamples | prop_fire.py:592-602 | The nested loops build the schedule day by day; None where a date overflows |
| PropFire.PlaceDay | prop_fire.py:594-602 | The inner loop appends the day's events, none on a weekend |
| PropFire.MockDayGrows | prop_fire.py:596-602 | One more sample appends its event |
| PropFire.MockScheduleExtends | prop_fire.py:592-602 | A day that exists extends the schedule by its events |
| PropFire.MockScheduleOverflows | prop_fire.py:593 | A day past year 9999 makes the whole schedule fail |
| PropFire.MockScheduleStaysNone | prop_fire.py:593 | Once a schedule fails, every longer one fails |
| NewsApi.TitleOf | news_api.py:82 | A missing title reads as "Economic Event"; a null one stays null |
| NewsApi.ParseHourMinute | news_api.py:65-67 | Midnight when there is no colon; otherwise an hour below 24 and a minute below 60 |
| NewsApi.IsoTimePart | news_api.py:61 | The clock part holds no `T`, `-` or `+`: the offset is gone |
| NewsApi.ParseEventDate | news_api.py:56-75 | The date is the parse of the text before `T`; without `T` the time is 12:00; with it, the `HH:MM` of the clock part |
| NewsApi.ParseIsoTimestamp | news_api.py:58-67 | `YYYY-MM-DDTHH:MM` followed by seconds or an offset parses to that date, hour and minute |
| NewsApi.ParseDateOnly | news_api.py:68-71 | A date-only text parses to that date at 12:00 |
| NewsApi.CountryMatches | news_api.py:40-42 | Fetch path: a non-empty string country equal to the currency ignoring case. List path (news_api.py:136): the upper-cased country, "" when missing, equals the upper-cased currency; a null drops the record. Used through `Keep` |
| NewsApi.RecordStamp | news_api.py:50-75 | A non-empty date text that parses; its contract is stated through `Keep` and `ParseEventDate` |
| NewsApi.Keep | news_api.py:39-92 | A record is kept iff its country matches, impact is exactly "High", its date is non-empty and parses, and it is strictly after now. A kept event has that time, the title or its default, the upper-cased currency and impact "High" |
| NewsApi.Matching | news_api.py:37-98 | Every collected event comes from a record that is kept; every kept record's event is collected; all are high impact, in the requested currency and in the future |
| NewsApi.MatchingAppend | news_api.py:37-98 | Events come in feed order, one per kept record, duplicates kept: one more record appends its event, if kept, at the end |
| NewsApi.InsertByTime | news_api.py:104 | Insertion keeps the list ordered by time and adds one element |
| NewsApi.InsertByTimePermutes | news_api.py:104 | Insertion adds the event and loses nothing |
| NewsApi.SortByTime | news_api.py:104 | The sort is ordered by time and is a permutation of its input |
| NewsApi.FirstEarliestAppend | news_api.py:104-105 | Appending keeps the first earliest event unless the new one is strictly earlier |
| NewsApi.SortHeadIsFirstEarliest | news_api.py:104-105 | The head of the stable sort is the first of the earliest events |
| NewsApi.CacheKey | news_api.py:15 | The key is the currency as given, a dash, and today's ISO date |
| NewsApi.CacheKeyInjective | news_api.py:15 | Two lookups share a cache entry only for the same currency text on the same day |
| NewsApi.StoredList | news_api.py:100-104 | The stored list is ordered by time, all high impact, and a permutation of the kept events |
| NewsApi.FetchOutcome | news_api.py:12-115 | A fresh entry returns the cached list with the cache unchanged. A failed request returns nothing with the cache unchanged. Otherwise the sorted kept events are stored and no list is returned. The cache stays ordered and high impact |
| NewsApi.ListOutcome | news_api.py:117-177 | The same, with the ordered list returned ([] on failure) |
| NewsApi.MissReturnsFirstEarliest | news_api.py:101-110 | On a miss: nothing iff no record is kept, else the first of the earliest kept events. The target day plays no part |
| NewsApi.NewsClient.constructor | news_api.py:7-9 | The cache starts empty |
| NewsApi.NewsClient.CollectEvents | news_api.py:37-98 | The loop collects exactly the kept events, in feed order |
| NewsApi.NewsClient.FetchHighImpactEvents | news_api.py:12-115 | Result and new cache are those of `FetchOutcome`; the cache invariant is kept |
| NewsApi.NewsClient.GetHighImpactNews | news_api.py:117-177 | Result and new cache are those of `ListOutcome`; the result is ordered by time |
| NewsApi.NewsClient.FetchHighImpactNews | news_api.py:179-181 | The same as `FetchHighImpactEvents`, with the session passed as the unused target day |
| AccountManager.EffectiveBalance | account_manager.py:77 | A configured non-zero balance is used as is; a missing or zero one becomes 10000 |
| AccountManager.PrevEquity | account_manager.py:77-87 | The equity a day starts from; stated by `PrevEquityIsLatestEarlier` |
| AccountManager.PrevEquityIsLatestEarlier | account_manager.py:80-87 | A new day starts from the starting balance when no row is earlier, else from the equity of the latest earlier row |
| AccountManager.RecordEquity | account_manager.py:90-94 | The curve stays in strictly increasing date order |
| AccountManager.RecordEquityWrites | account_manager.py:75-94 | The day's row holds the previous equity plus the PnL, and the PnL; every other row, later ones included, is unchanged |
| AccountManager.CurrentEquity | account_manager.py:107-112 | The current equity; stated by `CurrentEquityIsLatest` |
| AccountManager.CurrentEquityIsLatest | account_manager.py:107-112 | An empty curve gives the starting balance (or 10000); otherwise the equity of the row that every other row precedes |
| AccountManager.PrevEquityAfterLast | account_manager.py:80-87 | A day after every row starts from the current equity |
| AccountManager.RecordLatestDayAccumulates | account_manager.py:75-94 | Recording a day after every recorded day moves the current equity by exactly that day's PnL |
| AccountManager.BackdatedRecordLeavesLaterDays | account_manager.py:90-94 | A worked example: after 2025-01-02 and 2025-01-03 are recorded, re-recording 2025-01-02 with a new PnL changes that day only, and 2025-01-03 keeps its equity of 10150; the general law is `RecordEquityWrites` |
| AccountManager.EquityAfterSetup | account_manager.py:103-112 | After set-up, the current equity is the new balance, or 10000 for a balance of zero |
| AccountManager.AccountRepository.constructor | account_manager.py:22-25 | The storage holds the given balance and rows |
| AccountManager.AccountRepository.GetStartingBalance | account_manager.py:39-46 | The configured balance, or none |
| AccountManager.AccountRepository.SetStartingBalance | account_manager.py:48-57 | The balance is stored and the equity table is emptied |
| AccountManager.AccountRepository.GetEquityCurve | account_manager.py:59-73 | The rows in increasing date order, each date reading as stored |
| AccountManager.AccountRepository.UpdateEquity | account_manager.py:75-94 | The curve becomes `RecordEquity` of the old curve; the balance is unchanged |
| AccountManager.AccountService.constructor | account_manager.py:100-101 | The service wraps the repository |
| AccountManager.AccountService.SetupAccount | account_manager.py:103-105 | A new balance and an empty curve |
| AccountManager.AccountService.GetCurrentEquity | account_manager.py:107-112 | The result is `CurrentEquity` of the stored curve and balance |
| AccountManager.AccountService.GetEquityData | account_manager.py:114-116 | The curve for the chart, in increasing date order, each date reading as stored |
| TradingJournal.JournalRepository.constructor | trading_journal.py:27-30 | An existing table with an empty cache |
| TradingJournal.JournalRepository.GetMonthlyPnl | trading_journal.py:46-72 | The result is the month's rows in date order, from the cache or the table; the month is then cached; every cached month still equals a fresh query |
| TradingJournal.JournalRepository.UpdateDailyPnl | trading_journal.py:74-86 | The row is upserted. Only that month's cache entry is dropped. Every cached month still equals a fresh query |
| TradingJournal.CountNonZero | trading_journal.py:102 | At most the number of rows, and zero iff every PnL is zero; `CountNonZeroCounts` pins it to the number of non-zero rows |
| TradingJournal.SumPnl | trading_journal.py:97 | The sum of the rows' PnL; `SummaryAdditive` and `MonthTotalAfterWrite` state its behaviour |
| TradingJournal.SummaryAdditive | trading_journal.py:97-102 | The total and the non-zero count of a concatenation are the sums of those of its parts |
| TradingJournal.CountNonZeroCounts | trading_journal.py:102 | The count equals the number of positions whose PnL is not zero |
| TradingJournal.ByDay | trading_journal.py:101 | Every row's day is a key, and each key maps to a row of that day |
| TradingJournal.Summarize | trading_journal.py:96-103 | The total is the rows' PnL sum and trading days the non-zero count (at most the entries); the by-day map covers every row and holds only rows of their day |
| TradingJournal.JournalService.constructor | trading_journal.py:91-92 | The service wraps the repository |
| TradingJournal.JournalService.GetMonthlySummary | trading_journal.py:94-103 | The summary of the month's rows; the table is unchanged and the month is cached as a fresh query returns it |
| TradingJournal.DialogEntry | trading_journal.py:299-300 | The day's entry from the summary, or a zero entry; stated by `DialogEntryIsStoredDay` |
| TradingJournal.DialogEntryIsStoredDay | trading_journal.py:293-300 | The edit dialog opens on the day's stored row, or on a zero entry when there is none |
| TradingJournal.MonthTotalAfterWrite | trading_journal.py:74-103 | Writing a day moves its month's total by the new PnL minus the day's previous PnL |
| TradingJournal.PnlColor | trading_journal.py:237 | Green iff positive, red iff negative, the zero colour iff zero |
| TradingJournal.TradingJournalWindow.constructor | trading_journal.py:108-113 | The view opens on today |
| TradingJournal.TradingJournalWindow.PrevMonthClicked | trading_journal.py:249-255 | Moves to the same day of the previous month, carrying the year; stays put iff that day does not exist |
| TradingJournal.TradingJournalWindow.NextMonthClicked | trading_journal.py:257-263 | Moves to the same day of the next month, carrying the year; stays put iff that day does not exist |
| EnhancedJournal.EnhancedJournalRepository.constructor | enhanced_journal.py:33-37 | The store holds the given rows |
| EnhancedJournal.EnhancedJournalRepository.GetTradeEntry | enhanced_journal.py:56-75 | None iff no row has the date; otherwise the stored row's trade |
| EnhancedJournal.EnhancedJournalRepository.SaveTradeEntry | enhanced_journal.py:77-94 | The trade is upserted under its date |
| EnhancedJournal.SaveThenGet | enhanced_journal.py:56-94 | Saving then reading a date gives the saved trade; every other date reads as before |
| EnhancedJournal.ChartDestination | enhanced_journal.py:96-108 | "" when the file is missing; else `journal_images/YYYY-MM-DD_chart` followed by the `splitext` extension of the path |
| EnhancedJournal.ChartDestinationKeepsExtension | enhanced_journal.py:102-104 | `dir/name.ext` is stored as `journal_images/YYYY-MM-DD_chart.ext` |
| EnhancedJournal.ChartDestinationDatePart | enhanced_journal.py:103-104 | The date sits right after `journal_images/` |
| EnhancedJournal.ChartDestinationsOfDaysDiffer | enhanced_journal.py:103-104 | Charts of different days never share a file name |
| EnhancedJournal.ParseAmount | enhanced_journal.py:358-360 | An empty field reads as 0; only malformed text fails |
| EnhancedJournal.RiskReward | enhanced_journal.py:355-368 | When all three prices are positive and entry != stop, rr * abs(entry - stop) == abs(target - entry); otherwise 0. Never negative |
| EnhancedJournal.FormEntry | enhanced_journal.py:374-385 | An entry iff all four numbers parse. It carries those numbers and the risk/reward, no notes, and a chart only when an image was attached |
| EnhancedJournal.ResaveDropsChartAndNotes | enhanced_journal.py:287 | Saving again without attaching an image stores no chart and no notes |
| EnhancedJournal.EnhancedTradeDialog.constructor | enhanced_journal.py:282-287 | The dialog starts from the stored trade, or a zero trade |
| EnhancedJournal.EnhancedTradeDialog.SaveEntry | enhanced_journal.py:370-396 | Saved iff the form parses; then the trade is upserted and the same day's PnL recorded on the equity curve, in that order. Otherwise neither table changes |
| EnhancedJournal.MonthLabels | enhanced_journal.py:240-250 | The labels of days `day`..31 up to the first day the month lacks; stated by `MonthLabelsMatch`, `MonthLabelsOrdered` and `MonthLabelsComplete` |
| EnhancedJournal.MonthLabelsMatch | enhanced_journal.py:240-248 | Each label is a valid day of the month whose stored trade has that non-zero PnL, green for a gain, red for a loss |
| EnhancedJournal.MonthLabelsOrdered | enhanced_journal.py:240 | Labels come in strictly increasing day order |
| EnhancedJournal.MonthLabelsComplete | enhanced_journal.py:240-248 | Every day of the month whose stored trade has a non-zero PnL gets a label |
| EnhancedJournal.AscendingCons | enhanced_journal.py:240 | A label before every later one keeps the order |
| EnhancedJournal.EnhancedJournalWindow.constructor | enhanced_journal.py:113-117 | The view opens on today |
| EnhancedJournal.EnhancedJournalWindow.LoadMonthData | enhanced_journal.py:237-250 | The loop builds exactly the month's labels |
| EnhancedJournal.EnhancedJournalWindow.PrevMonthClicked | enhanced_journal.py:252-258 | As in the daily journal: the previous month's same day, or no move |
| EnhancedJournal.EnhancedJournalWindow.NextMonthClicked | enhanced_journal.py:260-266 | As in the daily journal: the next month's same day, or no move |
| DateTable.SortedKeyUnique | account_manager.py:32 | In a keyed table two rows with the same date are the same row |
| DateTable.Find | enhanced_journal.py:58-75 | None iff no row has the date; otherwise a row holds that date and value |
| DateTable.Upsert | trading_journal.py:78-81 | Key order is kept; no row appears but the table's and the written one |
| DateTable.UpsertFind | trading_journal.py:78-81 | After the write the date holds the new value and every other date holds what it held |
| DateTable.UpsertAfterLast | account_manager.py:91-94 | A date after every row is appended at the end |
| DateTable.LatestBefore | account_manager.py:81-87 | The row is earlier than the date and no earlier row follows it; None iff no row is earlier |
| DateTable.LatestBeforeAfterLast | account_manager.py:81-87 | When every row is earlier, the latest one before is the last row |
| DateTable.InMonth | trading_journal.py:53-58 | Exactly the rows of the month, in order |
| DateTable.UpsertOtherMonth | trading_journal.py:84-86 | Writing a date of another month leaves the month's rows as they were |
| Calendar.DaysInMonth | enhanced_journal.py:242 | Months have 28 to 31 days, 29 exactly in a leap February |
| Calendar.Weekday | prop_fire.py:595 | A weekday is 0 (Monday) to 6 |
| Calendar.NextDay | prop_fire.py:593 | The next day is valid and its day number is one more |
| Calendar.WeekdayAfterIsModular | prop_fire.py:595 | n days after weekday w comes weekday (w + n) mod 7 |
| Calendar.NextDayWeekday | prop_fire.py:595 | The next day's weekday follows the day's |
| Calendar.AddDays | prop_fire.py:593 | `today + timedelta(days=n)` is n day numbers later and n weekdays on; None past year 9999 |
| Calendar.InstantParts | prop_fire.py:435-436 | An instant splits back into its day number and its time of day |
| Calendar.StampRepresentable | prop_fire.py:413-414 | Every stamp's instant lies in the range a `datetime` can hold, 0001-01-01 00:00:00 to 9999-12-31 23:59:59 |
| Calendar.PrecedesOrder | news_api.py:104 | Time order is asymmetric and transitive |
| Calendar.DayNumberOrder | news_api.py:78 | An earlier date has a smaller day number |
| Calendar.InstantOrder | news_api.py:78 | One stamp precedes another iff its instant is smaller; equal iff equal instants |
| Calendar.DateIso | enhanced_journal.py:103 | The ISO text of a date is ten characters long |
| Calendar.ParseYmd | news_api.py:63 | A date that parses exists |
| Calendar.ParseClock | prop_fire.py:386 | A time that parses lies in one day and is a whole minute |
| Calendar.ParseYmdOfDateIso | account_manager.py:68 | Parsing a date's ISO text gives the date back |
| Calendar.DateIsoInjective | enhanced_journal.py:103 | Different dates have different ISO texts |
| Calendar.ParseClockOfClockText | prop_fire.py:394 | Parsing the `HH:MM` of a time gives the time back |
| Calendar.PrevMonth | trading_journal.py:251-254 | Same day, one month earlier, year carried; None iff that day does not exist |
| Calendar.NextMonth | trading_journal.py:259-262 | Same day, one month later, year carried; None iff that day does not exist |
| Calendar.NavigationRoundTrip | trading_journal.py:249-263 | Next then previous, or previous then next, returns to the same date |
| Calendar.NavigationFailsOnMissingDay | trading_journal.py:259-262 | From 31 January the next month fails; from 30 March the previous one fails; December carries into January |
| Strings.Upper | news_api.py:41 | Upper-casing keeps the length and maps each character |
| Strings.SplitExt | enhanced_journal.py:102 | The extension is a suffix of the path, empty or a dot with no slash |
| Strings.SplitExtOfFileName | enhanced_journal.py:102 | `dir/stem.ext` has extension `.ext` |
| Strings.SplitAtFirst | news_api.py:60-61 | Splitting `a c b` at the first `c` gives back `a` and `b` when `a` has no `c` |

## Left out

- Every window, dialog and widget: splash, config, layout, fonts, geometry, bindings, the grid, `winfo_exists`, and the `after()` rescheduling. The three lines of the countdown window are one value, `View`.
- Threads. `fetch_live_news` and the journal's `_load_month_data` run their work on a thread; here the work is one call.
- The network request and JSON decoding. The decoded feed is a parameter of type `Feed`; a failure anywhere before the loop is `Failed`. Non-list JSON and non-string field values are not modelled.
- SQLite and the JSON config file are fields holding rows; errors they raise are not modelled. `os.path.exists` is a boolean parameter. `shutil.copy2` and `os.makedirs` are not modelled; only the destination name is.
- `print` and `messagebox` output.
- Floating point: PnL, equity, prices and the risk/reward are `real`. Rounding and currency formatting (`f"${x:,.2f}"`) are left out.
- `PropFire.NextTradeTime`: instants are whole seconds. The source compares `datetime` values with microseconds and truncates the gap with `int()`. The model does not capture sub-second gaps.
- `NewsApi.NewsClient.FetchHighImpactEvents`: `now` is taken to the minute. This decides `event_date <= now` exactly, because feed times carry no seconds.
- `NewsApi.ParseHourMinute`: `int()` also accepts surrounding whitespace, a sign, underscores and non-ASCII digits. The model accepts plain ASCII digits only.
- `Strings.Upper`: maps ASCII letters only, not the whole of Unicode `str.upper()`.
- `Calendar.ParseYmd`: accepts ASCII digits only. `strptime` compiles `%Y` and `%d` with `\d`, which also matches other Unicode decimal digits, so a date such as "２０２５-01-15" parses in the source but not here.
- `Calendar.ParseClock`: accepts ASCII digits only. `strptime` compiles `%H` and `%M` with `\d`, which also matches other Unicode decimal digits.
- The trading journal's `_update_calendar_display` text formatting and the `EditDayDialog._save_entry` handler, which only forwards to `update_daily_pnl`.
- `AccountSetupDialog._save_balance`, which only forwards a parsed float to `setup_account`.
- `EnhancedJournal.EnhancedJournalWindow.LoadMonthData`: assumes the grid has a cell for every day of the month. `cell_date in self.day_cells` is always true for the grid `_create_calendar_grid` builds.
- `NewsApi.SortByTime`: the contract states that the result is ordered by time and is a permutation of the input. That the sort is stable (equal times keep feed order) is proved only for the head, by `SortHeadIsFirstEarliest`.
- File names follow POSIX `os.path`: `/` is the separator in the chart path and the only one `splitext` stops at. On Windows, `os.path.join` writes `journal_images\…` and `splitext` also stops at `\`.
- The colour of the status line: it is set once to amber and never changed, so `View` holds its text only.
- The settings load/save of `PropFireApp` and the splash-to-config-to-main flow.
- Not present in the code, so not modelled: sessions that wrap past midnight, time-zone conversion (offsets are cut off, not applied), an on-disk or stale cache fallback, and de-duplication of fetches in flight.
