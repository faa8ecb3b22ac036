/**
 * The countdown window of the timer: the prop firms' news restrictions, the
 * trading sessions, the next moment at which trading is allowed, the
 * `HH:MM:SS` countdown towards it with its colour band, the news line under
 * it, and the sample news list built at start-up.
 *
 * Instants are whole seconds since 0001-01-01 00:00 (see `Calendar.Instant`);
 * times of day are seconds after midnight.
 */
module PropFire {
  import opened Base
  import opened Strings
  import opened Calendar
  import opened NewsApi

  /** Minutes during which a firm forbids trading before and after a news release. */
  datatype FirmRules = FirmRules(before: int, after: int)

  /** A trading session by its `HH:MM` start and end texts. */
  datatype SessionHours = SessionHours(start: string, end: string)

  /** The settings the window reads: the combo-box choices of the config window. */
  datatype Settings = Settings(currency: string, propFirm: string, day: string, session: string)

  /** `self.prop_firms` of `setup_data`. */
  const PropFirms: map<string, FirmRules> := map[
    "FTMO" := FirmRules(2, 2),
    "MyForexFunds" := FirmRules(5, 5),
    "The5ers" := FirmRules(3, 3),
    "FundedNext" := FirmRules(2, 3)]

  /** `self.sessions` of `setup_data`, in UTC. */
  const Sessions: map<string, SessionHours> := map[
    "Asia" := SessionHours("00:00", "09:00"),
    "London" := SessionHours("08:00", "17:00"),
    "New York" := SessionHours("13:00", "22:00")]

  /** Every firm of the table restricts a non-negative number of minutes on both sides. */
  lemma PropFirmsNonNegative()
    ensures forall f :: f in PropFirms ==> PropFirms[f].before >= 0 && PropFirms[f].after >= 0
  {
  }

  /** The seconds after midnight of a stamp: `event_time.time()`. */
  function TimeOfDay(t: Stamp): (s: int)
    ensures 0 <= s < SecondsPerDay && s % 60 == 0
  {
    t.hour * 3600 + t.minute * 60
  }

  /**
   * `is_in_session(event_time)`: whether the time of day lies between the
   * session's start and end, both included, with no wrap past midnight. `None`
   * where the session is not in the table (KeyError) or a bound does not parse.
   */
  function IsInSession(t: Stamp, sessions: map<string, SessionHours>, settings: Settings): (r: Option<bool>)
    ensures r.Some? <==>
      settings.session in sessions &&
      ParseClock(sessions[settings.session].start).Some? && ParseClock(sessions[settings.session].end).Some?
    ensures r.Some? ==> (r.value <==>
      ParseClock(sessions[settings.session].start).value <= TimeOfDay(t) <= ParseClock(sessions[settings.session].end).value)
  {
    if settings.session !in sessions then None
    else
      var session := sessions[settings.session];
      match (ParseClock(session.start), ParseClock(session.end))
      case (Some(start), Some(end)) => Some(start <= TimeOfDay(t) <= end)
      case _ => None
  }

  /**
   * `is_in_session_time(time_str)`: the same test on an `HH:MM` text, false
   * wherever the text, the session lookup or a bound fails.
   */
  function IsInSessionTime(timeText: string, sessions: map<string, SessionHours>, settings: Settings): (r: bool)
    ensures r <==>
      && ParseClock(timeText).Some?
      && settings.session in sessions
      && ParseClock(sessions[settings.session].start).Some?
      && ParseClock(sessions[settings.session].end).Some?
      && ParseClock(sessions[settings.session].start).value <= ParseClock(timeText).value
      && ParseClock(timeText).value <= ParseClock(sessions[settings.session].end).value
  {
    match ParseClock(timeText)
    case None => false
    case Some(t) =>
      if settings.session !in sessions then false
      else
        var session := sessions[settings.session];
        match (ParseClock(session.start), ParseClock(session.end))
        case (Some(start), Some(end)) => start <= t <= end
        case _ => false
  }

  /** The text and the stamp test agree on the same time of day. */
  lemma SessionTestsAgree(t: Stamp, sessions: map<string, SessionHours>, settings: Settings)
    requires IsInSession(t, sessions, settings).Some?
    ensures IsInSessionTime(ClockText(t.hour, t.minute), sessions, settings) == IsInSession(t, sessions, settings).value
  {
    ParseClockOfClockText(t.hour, t.minute);
  }

  /**
   * The session start that follows `now`: today's when `now` is before it,
   * otherwise tomorrow's. It is the first instant strictly after `now` whose
   * time of day is `startOfDay`.
   */
  function FirstStartAfter(now: int, startOfDay: int): (t: int)
    requires now >= 0 && 0 <= startOfDay < SecondsPerDay
    ensures t % SecondsPerDay == startOfDay
    ensures now < t <= now + SecondsPerDay
  {
    var todayStart := now / SecondsPerDay * SecondsPerDay + startOfDay;
    if now < todayStart then todayStart else todayStart + SecondsPerDay
  }

  /** No instant with that time of day lies strictly between `now` and the start found. */
  lemma FirstStartAfterIsFirst(now: int, startOfDay: int, u: int)
    requires now >= 0 && 0 <= startOfDay < SecondsPerDay
    requires u % SecondsPerDay == startOfDay && now < u
    ensures FirstStartAfter(now, startOfDay) <= u
  {
    assert u == u / SecondsPerDay * SecondsPerDay + startOfDay;
  }

  /**
   * `get_next_session_start`: the next start of the chosen session. `None`
   * where the session is not in the table, its start does not parse, or
   * tomorrow's start is past 9999-12-31 (`now + timedelta(days=1)` overflows).
   */
  function NextSessionStart(now: int, sessions: map<string, SessionHours>, settings: Settings): (r: Option<int>)
    requires now >= 0
    ensures r.Some? <==>
      && settings.session in sessions
      && ParseClock(sessions[settings.session].start).Some?
      && FirstStartAfter(now, ParseClock(sessions[settings.session].start).value) < EndOfTime
    ensures r.Some? ==> r.value == FirstStartAfter(now, ParseClock(sessions[settings.session].start).value)
  {
    if settings.session !in sessions then None
    else
      match ParseClock(sessions[settings.session].start)
      case None => None
      case Some(startOfDay) =>
        var t := FirstStartAfter(now, startOfDay);
        if t < EndOfTime then Some(t) else None
  }

  /**
   * For a representable `now`, the session start overflows exactly when the
   * day's start has passed and `now` falls on 9999-12-31, the one day whose
   * `now + timedelta(days=1)` leaves the range.
   */
  lemma SessionStartOverflows(now: int, startOfDay: int)
    requires Representable(now) && 0 <= startOfDay < SecondsPerDay
    ensures FirstStartAfter(now, startOfDay) >= EndOfTime <==>
      now % SecondsPerDay >= startOfDay && now + SecondsPerDay >= EndOfTime
  {
    var lastDay := DayNumber(Date(MaxYear, 12, 31));
    var day := now / SecondsPerDay;
    assert now == day * SecondsPerDay + now % SecondsPerDay;
    assert day <= lastDay;
    if day < lastDay {
      assert (day + 1) * SecondsPerDay + startOfDay < (lastDay + 1) * SecondsPerDay;
    }
  }

  /** `get_next_news_event()`: the event's time, its title as printed, and the chosen currency. */
  datatype NewsRef = NewsRef(at: Stamp, name: Option<string>, currency: string)

  /** `str(title)`: a JSON `null` title prints as `None`. */
  function NameText(name: Option<string>): string {
    match name
    case Some(s) => s
    case None => "None"
  }

  /** Why the countdown runs to its target. */
  datatype Reason =
    | BlockedBefore(name: Option<string>)
    | RestrictionActive(name: Option<string>)
    | NextSession
    | SessionBegins

  /** The status line of each reason. */
  function ReasonText(r: Reason): string {
    match r
    case BlockedBefore(n) => "Trading blocked before " + NameText(n)
    case RestrictionActive(n) => "Waiting for " + NameText(n) + " restriction to end"
    case NextSession => "Waiting for next session"
    case SessionBegins => "Waiting for session to begin"
  }

  /** The restricted interval around a release: `[news - before, news + after]` in seconds. */
  function BlockWindow(news: int, rules: FirmRules): (w: (int, int))
    ensures rules.before >= 0 && rules.after >= 0 ==> w.0 <= news <= w.1
    ensures w.1 - w.0 == (rules.before + rules.after) * 60
  {
    (news - rules.before * 60, news + rules.after * 60)
  }

  /**
   * `calculate_next_trade_time`: with a news event, the start of its blocked
   * window while `now` is before it, the end of the window while `now` is in
   * it (end included), and the next session start once it is over; without
   * one, the next session start. `None` where a table lookup raises KeyError
   * or an end of the window, or the session start, leaves the `datetime`
   * range and raises OverflowError.
   */
  function NextTradeTime(now: int, next: Option<NewsRef>, firms: map<string, FirmRules>,
                         sessions: map<string, SessionHours>, settings: Settings): (r: Option<(int, Reason)>)
    requires now >= 0
    ensures r.Some? ==> r.value.0 >= now && (r.value.0 == now ==> r.value.1.RestrictionActive?)
    ensures r.Some? ==> Representable(r.value.0)
  {
    match next
    case None =>
      (match NextSessionStart(now, sessions, settings)
       case Some(t) => Some((t, SessionBegins))
       case None => None)
    case Some(event) =>
      if settings.propFirm !in firms then None
      else
        var w := BlockWindow(Instant(event.at), firms[settings.propFirm]);
        if !Representable(w.0) || !Representable(w.1) then None
        else if now < w.0 then Some((w.0, BlockedBefore(event.name)))
        else if now <= w.1 then Some((w.1, RestrictionActive(event.name)))
        else
          match NextSessionStart(now, sessions, settings)
          case Some(t) => Some((t, NextSession))
          case None => None
  }

  /** The cases of `calculate_next_trade_time`, in the order its branches test them. */
  lemma NextTradeTimeCases(now: int, next: Option<NewsRef>, firms: map<string, FirmRules>,
                           sessions: map<string, SessionHours>, settings: Settings)
    requires now >= 0
    ensures var r := NextTradeTime(now, next, firms, sessions, settings);
      && (next.None? ==>
            r == (match NextSessionStart(now, sessions, settings)
                  case Some(t) => Some((t, SessionBegins))
                  case None => None))
      && (next.Some? && settings.propFirm !in firms ==> r.None?)
      && (next.Some? && settings.propFirm in firms ==>
            var w := BlockWindow(Instant(next.value.at), firms[settings.propFirm]);
            && (!Representable(w.0) || !Representable(w.1) ==> r.None?)
            && (Representable(w.0) && Representable(w.1) ==>
            && (now < w.0 ==> r == Some((w.0, BlockedBefore(next.value.name))))
            && (w.0 <= now <= w.1 ==> r == Some((w.1, RestrictionActive(next.value.name))))
            && (w.0 <= now && w.1 < now ==>
                  r == (match NextSessionStart(now, sessions, settings)
                        case Some(t) => Some((t, NextSession))
                        case None => None))))
  {
  }

  /**
   * With the firms of the table the news release itself always falls in the
   * blocked window, so the status names the release until its window is over.
   * The calculation fails only where the window runs out of the `datetime`
   * range: its start before 0001-01-01 or its end after 9999-12-31 23:59:59.
   */
  lemma ReleaseIsBlocked(now: int, event: NewsRef, sessions: map<string, SessionHours>, settings: Settings)
    requires now >= 0 && settings.propFirm in PropFirms
    requires now <= Instant(event.at)
    ensures var r := NextTradeTime(now, Some(event), PropFirms, sessions, settings);
      var w := BlockWindow(Instant(event.at), PropFirms[settings.propFirm]);
      && (r.Some? <==> 0 <= w.0 && w.1 < EndOfTime)
      && (r.Some? ==> r.value.1 == BlockedBefore(event.name) || r.value.1 == RestrictionActive(event.name))
  {
    PropFirmsNonNegative();
    StampRepresentable(event.at);
  }

  /**
   * A release in the last minute of 9999-12-31 cannot be timed with any firm
   * of the table: `news_time + timedelta(minutes=after)` overflows, and the
   * tick shows "ERROR" whatever `now` is.
   */
  lemma LastMinuteReleaseFails(now: int, event: NewsRef, sessions: map<string, SessionHours>, settings: Settings)
    requires now >= 0 && settings.propFirm in PropFirms
    requires event.at == DateTime(Date(MaxYear, 12, 31), 23, 59)
    ensures NextTradeTime(now, Some(event), PropFirms, sessions, settings).None?
  {
    assert PropFirms[settings.propFirm].after >= 1;
  }

  /** `divmod(total, 3600)` and then `divmod(remainder, 60)`. */
  function SplitSeconds(total: nat): (hms: (nat, nat, nat))
    ensures hms.0 * 3600 + hms.1 * 60 + hms.2 == total
    ensures hms.1 < 60 && hms.2 < 60
  {
    (total / 3600, total % 3600 / 60, total % 60)
  }

  /** `f"{hours:02d}:{minutes:02d}:{seconds:02d}"`: a text that reads back as the seconds it shows. */
  function TimerText(total: nat): (text: string)
    ensures ReadTimer(text).Some? && ReadTimer(text).value == total
  {
    var hms := SplitSeconds(total);
    assert Pow10(2) == 100;
    ReadTimerOfFields(Digits(hms.0, 2), Digits(hms.1, 2), Digits(hms.2, 2));
    Digits(hms.0, 2) + ":" + Digits(hms.1, 2) + ":" + Digits(hms.2, 2)
  }

  /** Reads an `H:MM:SS` countdown back into seconds; `None` for any other text. */
  function ReadTimer(text: string): (r: Option<nat>)
    ensures r.Some? ==> ':' in text
  {
    if ':' !in text then None else ReadMinutesSeconds(UpTo(text, ':'), AfterFirst(text, ':'))
  }

  /** The hour field and the `MM:SS` rest of a countdown. */
  function ReadMinutesSeconds(hourText: string, rest: string): Option<nat> {
    if ':' !in rest then None else TimerFields(hourText, UpTo(rest, ':'), AfterFirst(rest, ':'))
  }

  /** The seconds of an hour field of digits and two two-digit fields. */
  function TimerFields(hourText: string, minuteText: string, secondText: string): (r: Option<nat>)
    ensures r.Some? <==> hourText != [] && AllDigits(hourText) && |minuteText| == 2 && AllDigits(minuteText)
                         && |secondText| == 2 && AllDigits(secondText)
    ensures r.Some? ==> r.value == NatOf(hourText) * 3600 + NatOf(minuteText) * 60 + NatOf(secondText)
  {
    if hourText == [] || !AllDigits(hourText) || |minuteText| != 2 || !AllDigits(minuteText)
       || |secondText| != 2 || !AllDigits(secondText)
    then None
    else Some(NatOf(hourText) * 3600 + NatOf(minuteText) * 60 + NatOf(secondText))
  }

  /** Three digit fields joined by colons read back as hours, minutes and seconds. */
  lemma ReadTimerOfFields(hh: string, mm: string, ss: string)
    requires AllDigits(hh) && AllDigits(mm) && AllDigits(ss)
    requires |hh| >= 1 && |mm| == 2 && |ss| == 2
    ensures ReadTimer(hh + ":" + mm + ":" + ss).Some?
    ensures ReadTimer(hh + ":" + mm + ":" + ss).value == NatOf(hh) * 3600 + NatOf(mm) * 60 + NatOf(ss)
  {
    assert !IsDigit(':');
    assert ':' !in hh && ':' !in mm;
    var rest := mm + [':'] + ss;
    var text := hh + [':'] + rest;
    assert hh + ":" + mm + ":" + ss == text;
    SplitAtFirst(hh, rest, ':');
    SplitAtFirst(mm, ss, ':');
    assert ReadMinutesSeconds(hh, rest) == TimerFields(hh, mm, ss);
    assert ReadTimer(text) == ReadMinutesSeconds(hh, rest);
  }

  /** A label's text and colour. */
  datatype Label = Label(text: string, color: string)

  const Red := "#ff4444"
  const Amber := "#ffaa00"
  const Green := "#00ff00"

  /** The colour band of a positive gap: red under 5 minutes, amber under 15, else green. */
  function TimerColor(gap: int): (c: string)
    ensures c == Red <==> gap < 300
    ensures c == Amber <==> 300 <= gap < 900
    ensures c == Green <==> 900 <= gap
  {
    if gap < 300 then Red else if gap < 900 then Amber else Green
  }

  const TradeNow := Label("TRADE NOW", Green)
  const NoRestrictions := "Session Active - No Restrictions"

  /**
   * The timer and status lines for a target `gap` seconds away: a countdown
   * and the reason while the gap is positive, "TRADE NOW" otherwise.
   */
  function TimerLines(gap: int, reason: Reason): (lines: (Label, string))
    ensures gap > 0 ==> lines.0.color == TimerColor(gap) && lines.1 == ReasonText(reason)
    ensures gap <= 0 ==> lines == (TradeNow, NoRestrictions)
  {
    if gap > 0 then (Label(TimerText(gap), TimerColor(gap)), ReasonText(reason))
    else (TradeNow, NoRestrictions)
  }

  /** While the gap is positive the countdown reads back as the gap in seconds. */
  lemma TimerLinesCountDown(gap: int, reason: Reason)
    requires gap > 0
    ensures ReadTimer(TimerLines(gap, reason).0.text).Some?
    ensures ReadTimer(TimerLines(gap, reason).0.text).value == gap
  {
  }

  const ErrorTimer := Label("ERROR", Red)
  const ErrorStatus := "Calculation error"

  /** The message left by a non-empty cached list: `result['title']` on a list raises TypeError. */
  const ListIndexError := "Network Error: list indices must be integers or slices, not str"

  /**
   * What `fetch_news` leaves in `current_news_event` and `api_error_message`:
   * a new event is kept; nothing or an empty list clears both; a non-empty
   * cached list is truthy, so printing its `['title']` raises and the error
   * message is kept instead of an event.
   */
  function FetchState(r: FetchResult): (s: (Option<Event>, Option<string>))
    ensures s.0.Some? <==> r.NextEvent?
    ensures r.NextEvent? ==> s == (Some(r.event), None)
    ensures s.1.Some? <==> r.CachedList? && r.events != []
    ensures s.1.Some? ==> s.1.value == ListIndexError
  {
    match r
    case NextEvent(e) => (Some(e), None)
    case NoEvent => (None, None)
    case CachedList(events) => if events == [] then (None, None) else (None, Some(ListIndexError))
  }

  /** The news line: the event and its time, the network warning, or the no-news line. */
  function NewsLabel(event: Option<Event>, error: Option<string>): (l: Label)
    ensures event.Some? ==> l.color == "#ffffff"
    ensures event.None? && error.Some? ==> l.color == Amber
    ensures event.None? && error.None? ==> l.color == "#888888"
  {
    match event
    case Some(e) =>
      Label("\U{1F4F0} " + NameText(e.title) + "\n" + DateIso(e.at.date) + " " + ClockText(e.at.hour, e.at.minute) + " UTC",
            "#ffffff")
    case None =>
      if error.Some? then Label("\U{26A0}\U{FE0F} Network Error\nUsing session timing", Amber)
      else Label("\U{1F4F0} No major news \U{2014} preparing for session open", "#888888")
  }

  /** The window's three lines: the countdown, the status and the news line. */
  datatype View = View(timer: Label, status: string, news: Label)

  /**
   * The lines `create_main_widgets` sets up before the first tick. The news
   * label is given no colour; `""` stands for the theme's default.
   */
  const InitialView := View(Label("00:00:00", Green), "Calculating...", Label("No upcoming news", ""))

  /** `MainCountdownWindow`: the settings and tables it was opened with, the news client and the three lines it shows. */
  class CountdownWindow {
    const settings: Settings
    const firms: map<string, FirmRules>
    const sessions: map<string, SessionHours>
    const client: NewsClient
    var currentNewsEvent: Option<Event>
    var apiErrorMessage: Option<string>
    var shown: View

    /**
     * The window as `__init__` leaves it before the first fetch and the first
     * tick. `create_main_widgets` looks the firm up in the table and raises
     * KeyError for an unknown one, so no window exists without it.
     */
    constructor(settings: Settings, firms: map<string, FirmRules>, sessions: map<string, SessionHours>)
      requires settings.propFirm in firms
      ensures this.settings == settings && this.firms == firms && this.sessions == sessions
      ensures fresh(client) && client.Valid() && client.cache == map[]
      ensures currentNewsEvent == None && apiErrorMessage == None
      ensures shown == InitialView
    {
      this.settings := settings;
      this.firms := firms;
      this.sessions := sessions;
      client := new NewsClient();
      currentNewsEvent := None;
      apiErrorMessage := None;
      shown := InitialView;
    }

    /**
     * `fetch_live_news`: asks the client for the next event of the chosen
     * currency (the chosen day goes in as the unused session argument) and
     * keeps what `fetch_news` keeps.
     */
    method FetchLiveNews(today: Date, now: Stamp, clock: real, storeClock: real, feed: Feed)
      requires client.Valid() && ValidDate(today)
      modifies this, client
      ensures client.Valid()
      ensures var outcome := FetchOutcome(old(client.cache), settings.currency, today, now, clock, storeClock, feed);
        client.cache == outcome.1 && (currentNewsEvent, apiErrorMessage) == FetchState(outcome.0)
      ensures shown == old(shown)
    {
      var result := client.FetchHighImpactNews(settings.currency, settings.day, today, now, clock, storeClock, feed);
      match result {
        case NextEvent(e) =>
          currentNewsEvent := Some(e);
          apiErrorMessage := None;
        case NoEvent =>
          currentNewsEvent := None;
          apiErrorMessage := None;
        case CachedList(events) =>
          if events == [] {
            currentNewsEvent := None;
            apiErrorMessage := None;
          } else {
            // The list is stored for a moment, then the failing print resets both fields.
            currentNewsEvent := None;
            apiErrorMessage := Some(ListIndexError);
          }
      }
    }

    /** `get_next_news_event`: the current event with the chosen currency, if there is one. */
    function GetNextNewsEvent(): (r: Option<NewsRef>)
      reads this`currentNewsEvent
      ensures r.Some? <==> currentNewsEvent.Some?
      ensures r.Some? ==>
        r.value.at == currentNewsEvent.value.at && r.value.name == currentNewsEvent.value.title &&
        r.value.currency == settings.currency
    {
      match currentNewsEvent
      case Some(e) => Some(NewsRef(e.at, e.title, settings.currency))
      case None => None
    }

    /**
     * One tick of `update_timer` at `now`: the three lines become those of
     * `Tick` for the current event; the fetched state is left alone.
     */
    method UpdateTimer(now: int)
      requires now >= 0
      modifies this
      ensures currentNewsEvent == old(currentNewsEvent) && apiErrorMessage == old(apiErrorMessage)
      ensures shown == Tick(now, old(GetNextNewsEvent()), firms, sessions, settings,
                            currentNewsEvent, apiErrorMessage, old(shown.news))
    {
      shown := Tick(now, GetNextNewsEvent(), firms, sessions, settings, currentNewsEvent, apiErrorMessage, shown.news);
    }
  }

  /**
   * What one tick of `update_timer` shows: the countdown and the status
   * towards the next trade time, then the news line.
   */
  function Tick(now: int, next: Option<NewsRef>, firms: map<string, FirmRules>,
                sessions: map<string, SessionHours>, settings: Settings,
                event: Option<Event>, error: Option<string>, shown: Label): View
    requires now >= 0
  {
    ShowTarget(now, NextTradeTime(now, next, firms, sessions, settings), event, error, shown)
  }

  /**
   * The window for a computed target; where the calculation raised
   * (`None`), the timer shows "ERROR" and the news line stays as it was.
   */
  function ShowTarget(now: int, target: Option<(int, Reason)>, event: Option<Event>,
                      error: Option<string>, shown: Label): View
  {
    match target
    case None => View(ErrorTimer, ErrorStatus, shown)
    case Some(t) =>
      var lines := TimerLines(t.0 - now, t.1);
      View(lines.0, lines.1, NewsLabel(event, error))
  }

  /**
   * A tick shows "TRADE NOW" once the target is not in the future, the news
   * line of the fetched state whenever there is a target, and "ERROR" with
   * the news line untouched when the target cannot be computed.
   */
  lemma ShowTargetReads(now: int, target: Option<(int, Reason)>, event: Option<Event>,
                        error: Option<string>, shown: Label)
    ensures var v := ShowTarget(now, target, event, error, shown);
      && (target.None? ==> v.timer == ErrorTimer && v.status == ErrorStatus && v.news == shown)
      && (target.Some? ==> v.news == NewsLabel(event, error))
      && (target.Some? && target.value.0 <= now ==> v.timer == TradeNow && v.status == NoRestrictions)
  {
  }

  /**
   * Before the target the timer counts down `H:MM:SS` that reads back as the
   * seconds left, coloured by them, and the status gives the reason.
   */
  lemma ShowTargetCountsDown(now: int, at: int, reason: Reason, event: Option<Event>,
                             error: Option<string>, shown: Label)
    requires now < at
    ensures var v := ShowTarget(now, Some((at, reason)), event, error, shown);
      && ReadTimer(v.timer.text).Some? && ReadTimer(v.timer.text).value == at - now
      && v.timer.color == TimerColor(at - now) && v.status == ReasonText(reason)
  {
    TimerLinesCountDown(at - now, reason);
  }

  /** One of the sample events `generate_mock_news` repeats on each weekday. */
  datatype Sample = Sample(currency: string, name: string, impact: string, time: string)

  const SampleEvents: seq<Sample> := [
    Sample("USD", "FOMC Meeting", "high", "14:00"),
    Sample("USD", "NFP Release", "high", "12:30"),
    Sample("EUR", "ECB Rate Decision", "high", "11:45"),
    Sample("GBP", "BOE Meeting", "high", "12:00"),
    Sample("JPY", "BOJ Statement", "high", "03:00")]

  /** A generated sample event, by the keys of its dictionary. */
  datatype MockEvent = MockEvent(date: string, time: string, currency: string, name: string, impact: string)

  function MockOf(d: Date, s: Sample): MockEvent
    requires ValidDate(d)
  {
    MockEvent(DateIso(d), s.time, s.currency, s.name, s.impact)
  }

  /** The samples placed on day `d`, in order. */
  function MockDay(d: Date, samples: seq<Sample>): (r: seq<MockEvent>)
    requires ValidDate(d)
    ensures |r| == |samples|
    ensures forall k :: 0 <= k < |r| ==> r[k] == MockOf(d, samples[k])
  {
    if samples == [] then []
    else MockDay(d, samples[..|samples| - 1]) + [MockOf(d, samples[|samples| - 1])]
  }

  /** The events of the first `n` days from `today`; `None` where a day overflows. */
  function MockSchedule(today: Date, n: nat, samples: seq<Sample>): (r: Option<seq<MockEvent>>)
    requires ValidDate(today)
  {
    if n == 0 then Some([])
    else
      match (MockSchedule(today, n - 1, samples), AddDays(today, n - 1))
      case (Some(front), Some(d)) => Some(front + DayEvents(d, samples))
      case _ => None
  }

  /** The samples placed on day `d` when it is Monday to Friday, none on a weekend. */
  function DayEvents(d: Date, samples: seq<Sample>): (r: seq<MockEvent>)
    requires ValidDate(d)
    ensures |r| == if Weekday(d) < 5 then |samples| else 0
    ensures forall e :: e in r ==> Weekday(d) < 5 && e.date == DateIso(d)
  {
    if Weekday(d) < 5 then MockDay(d, samples) else []
  }

  /** `per` events on each Monday-to-Friday among `n` days starting on weekday `w`. */
  function ScheduleSize(w: int, n: nat, per: nat): nat
    requires 0 <= w < 7
  {
    if n == 0 then 0 else ScheduleSize(w, n - 1, per) + (if WeekdayAfter(w, n - 1) < 5 then per else 0)
  }

  /** The size with `per` events a day is `per` times the number of working days. */
  lemma {:induction false} ScheduleSizeScales(w: int, n: nat, per: nat)
    requires 0 <= w < 7
    ensures ScheduleSize(w, n, per) == per * ScheduleSize(w, n, 1)
  {
    if n > 0 {
      ScheduleSizeScales(w, n - 1, per);
      var before := ScheduleSize(w, n - 1, 1);
      if WeekdayAfter(w, n - 1) < 5 {
        assert per * (before + 1) == per * before + per;
      }
    }
  }

  /** Any seven consecutive days hold exactly five working days. */
  lemma WeekHasFiveWorkDays(w: int)
    requires 0 <= w < 7
    ensures ScheduleSize(w, 7, 1) == 5
  {
    if w == 0 { assert ScheduleSize(0, 7, 1) == 5; }
    else if w == 1 { assert ScheduleSize(1, 7, 1) == 5; }
    else if w == 2 { assert ScheduleSize(2, 7, 1) == 5; }
    else if w == 3 { assert ScheduleSize(3, 7, 1) == 5; }
    else if w == 4 { assert ScheduleSize(4, 7, 1) == 5; }
    else if w == 5 { assert ScheduleSize(5, 7, 1) == 5; }
    else { assert ScheduleSize(6, 7, 1) == 5; }
  }

  /** `e` is dated on one of the first `n` days from `today`, and that day is Monday to Friday. */
  predicate OnWorkDay(today: Date, n: nat, e: MockEvent)
    requires ValidDate(today)
  {
    exists i :: 0 <= i < n && AddDays(today, i).Some? && Weekday(AddDays(today, i).value) < 5 &&
      e.date == DateIso(AddDays(today, i).value)
  }

  /** The schedule of `m + 1` days is that of `m` days and the events of day `m`. */
  lemma MockScheduleStep(today: Date, m: nat, samples: seq<Sample>) returns (d: Date)
    requires ValidDate(today) && MockSchedule(today, m + 1, samples).Some?
    ensures AddDays(today, m) == Some(d) && MockSchedule(today, m, samples).Some?
    ensures ValidDate(d) && Weekday(d) == WeekdayAfter(Weekday(today), m)
    ensures MockSchedule(today, m + 1, samples).value == MockSchedule(today, m, samples).value + DayEvents(d, samples)
  {
    d := AddDays(today, m).value;
  }

  /** The schedule of `n` days holds every sample once per working day. */
  lemma {:induction false} MockScheduleLength(today: Date, n: nat, samples: seq<Sample>)
    requires ValidDate(today) && MockSchedule(today, n, samples).Some?
    ensures |MockSchedule(today, n, samples).value| == ScheduleSize(Weekday(today), n, |samples|)
  {
    if n > 0 {
      var m := n - 1;
      var d := MockScheduleStep(today, m, samples);
      MockScheduleLength(today, m, samples);
    }
  }

  /** Every event of the schedule is dated on a working day of the period. */
  lemma {:induction false} MockScheduleOnWorkDays(today: Date, n: nat, samples: seq<Sample>)
    requires ValidDate(today) && MockSchedule(today, n, samples).Some?
    ensures forall e: MockEvent :: e in MockSchedule(today, n, samples).value ==> OnWorkDay(today, n, e)
  {
    if n > 0 {
      var m := n - 1;
      var d := MockScheduleStep(today, m, samples);
      var front := MockSchedule(today, m, samples).value;
      MockScheduleOnWorkDays(today, m, samples);
      forall e | e in front + DayEvents(d, samples)
        ensures OnWorkDay(today, n, e)
      {
        if e in front {
          assert OnWorkDay(today, m, e);
          var i :| 0 <= i < m && AddDays(today, i).Some? && Weekday(AddDays(today, i).value) < 5 &&
            e.date == DateIso(AddDays(today, i).value);
        } else {
          assert AddDays(today, m) == Some(d);
        }
      }
    }
  }

  /** `generate_mock_news()` on a run started on `today` yields 25 weekday events over a week. */
  lemma MockNewsHasTwentyFive(today: Date)
    requires ValidDate(today) && MockSchedule(today, 7, SampleEvents).Some?
    ensures |MockSchedule(today, 7, SampleEvents).value| == 25
  {
    MockScheduleLength(today, 7, SampleEvents);
    WeekHasFiveWorkDays(Weekday(today));
    ScheduleSizeScales(Weekday(today), 7, |SampleEvents|);
  }

  /**
   * `generate_mock_news`: for each of the seven days from `today` and each
   * sample, the sample on that day when it is Monday to Friday. `None` where
   * `today + timedelta(days=i)` overflows.
   */
  method GenerateMockNews(today: Date) returns (events: Option<seq<MockEvent>>)
    requires ValidDate(today)
    ensures events == MockSchedule(today, 7, SampleEvents)
  {
    events := PlaceSamples(today, 7, SampleEvents);
  }

  /** The two loops of `generate_mock_news`, over `days` days and the given samples. */
  method PlaceSamples(today: Date, days: nat, samples: seq<Sample>) returns (events: Option<seq<MockEvent>>)
    requires ValidDate(today)
    ensures events == MockSchedule(today, days, samples)
  {
    var news: seq<MockEvent> := [];
    var i := 0;
    while i < days
      invariant 0 <= i <= days
      invariant MockSchedule(today, i, samples) == Some(news)
    {
      var eventDate := AddDays(today, i);
      if eventDate.None? {
        MockScheduleOverflows(today, i, days, samples);
        return None;
      }
      var d := eventDate.value;
      news := PlaceDay(d, samples, news);
      MockScheduleExtends(today, i, samples, d);
      i := i + 1;
    }
    events := Some(news);
  }

  /** The inner loop of `generate_mock_news`: every sample on day `d`, skipped on a weekend. */
  method PlaceDay(d: Date, samples: seq<Sample>, news: seq<MockEvent>) returns (grown: seq<MockEvent>)
    requires ValidDate(d)
    ensures grown == news + DayEvents(d, samples)
  {
    grown := news;
    var j := 0;
    while j < |samples|
      invariant 0 <= j <= |samples|
      invariant grown == news + (if Weekday(d) < 5 then MockDay(d, samples[..j]) else [])
    {
      if Weekday(d) < 5 {
        grown := grown + [MockOf(d, samples[j])];
        MockDayGrows(d, samples, j);
      }
      j := j + 1;
    }
    assert samples[..|samples|] == samples;
  }

  /** Placing one more sample on a day appends its event. */
  lemma MockDayGrows(d: Date, samples: seq<Sample>, j: nat)
    requires ValidDate(d) && j < |samples|
    ensures MockDay(d, samples[..j + 1]) == MockDay(d, samples[..j]) + [MockOf(d, samples[j])]
  {
    assert samples[..j + 1][..j] == samples[..j];
  }

  /** The schedule grows by the events of day `m` when that day exists. */
  lemma MockScheduleExtends(today: Date, m: nat, samples: seq<Sample>, d: Date)
    requires ValidDate(today) && MockSchedule(today, m, samples).Some? && AddDays(today, m) == Some(d)
    ensures MockSchedule(today, m + 1, samples) == Some(MockSchedule(today, m, samples).value + DayEvents(d, samples))
  {
  }

  /** A day that overflows makes every schedule reaching past it overflow. */
  lemma MockScheduleOverflows(today: Date, m: nat, n: nat, samples: seq<Sample>)
    requires ValidDate(today) && m < n && AddDays(today, m).None?
    ensures MockSchedule(today, n, samples).None?
  {
    var k := m + 1;
    assert MockSchedule(today, k, samples).None?;
    MockScheduleStaysNone(today, k, n, samples);
  }

  /** Once a day overflows, every longer schedule does. */
  lemma {:induction false} MockScheduleStaysNone(today: Date, m: nat, n: nat, samples: seq<Sample>)
    requires ValidDate(today) && m <= n && MockSchedule(today, m, samples).None?
    ensures MockSchedule(today, n, samples).None?
    decreases n - m
  {
    if m < n {
      MockScheduleStaysNone(today, m + 1, n, samples);
    }
  }
}
