/**
 * Calendar arithmetic of Python's `datetime` as the core uses it: proleptic
 * Gregorian dates in years 1..9999, day numbers counted from 0001-01-01 (a
 * Monday, so `Weekday` agrees with `date.weekday()`), the `%Y-%m-%d` and `%H:%M`
 * formats in both directions, and `date.replace` to the previous or next month.
 */
module Calendar {
  import opened Base
  import opened Strings

  const MinYear := 1
  const MaxYear := 9999
  const SecondsPerDay := 86400

  datatype Date = Date(year: int, month: int, day: int)

  predicate IsLeapYear(y: int) {
    y % 4 == 0 && (y % 100 != 0 || y % 400 == 0)
  }

  function DaysInMonth(y: int, m: int): (n: int)
    requires 1 <= m <= 12
    ensures 28 <= n <= 31
    ensures n == 29 <==> m == 2 && IsLeapYear(y)
  {
    if m == 2 then (if IsLeapYear(y) then 29 else 28)
    else if m == 4 || m == 6 || m == 9 || m == 11 then 30
    else 31
  }

  /** The dates `datetime.date(year, month, day)` accepts without raising ValueError. */
  predicate ValidDate(d: Date) {
    && MinYear <= d.year <= MaxYear
    && 1 <= d.month <= 12
    && 1 <= d.day <= DaysInMonth(d.year, d.month)
  }

  /** Chronological order of dates; it is also the order of their `YYYY-MM-DD` keys. */
  predicate Earlier(a: Date, b: Date) {
    || a.year < b.year
    || (a.year == b.year && a.month < b.month)
    || (a.year == b.year && a.month == b.month && a.day < b.day)
  }

  function DaysInYear(y: int): int {
    if IsLeapYear(y) then 366 else 365
  }

  function DaysBeforeYear(y: int): int
    requires y >= MinYear
  {
    if y == MinYear then 0 else DaysBeforeYear(y - 1) + DaysInYear(y - 1)
  }

  function DaysBeforeMonth(y: int, m: int): int
    requires 1 <= m <= 12
  {
    var cumulative := [0, 31, 59, 90, 120, 151, 181, 212, 243, 273, 304, 334];
    cumulative[m - 1] + (if m > 2 && IsLeapYear(y) then 1 else 0)
  }

  /** Days since 0001-01-01: Python's `date.toordinal() - 1`. */
  function DayNumber(d: Date): int
    requires ValidDate(d)
  {
    DaysBeforeYear(d.year) + DaysBeforeMonth(d.year, d.month) + d.day - 1
  }

  /** `date.weekday()`: Monday is 0 and Sunday is 6. */
  function Weekday(d: Date): (w: int)
    requires ValidDate(d)
    ensures 0 <= w < 7
  {
    DayNumber(d) % 7
  }

  lemma DaysBeforeNextMonth(y: int, m: int)
    requires 1 <= m < 12
    ensures DaysBeforeMonth(y, m + 1) == DaysBeforeMonth(y, m) + DaysInMonth(y, m)
  {
  }

  /**
   * The calendar successor of `d`, one day number later; past `date.max` it
   * is a date in year 10000, which `datetime` cannot hold.
   */
  function NextDay(d: Date): (r: Date)
    requires ValidDate(d)
    ensures r.year <= MaxYear ==> ValidDate(r) && DayNumber(r) == DayNumber(d) + 1
  {
    if d.day < DaysInMonth(d.year, d.month) then
      Date(d.year, d.month, d.day + 1)
    else if d.month < 12 then
      DaysBeforeNextMonth(d.year, d.month);
      Date(d.year, d.month + 1, 1)
    else
      Date(d.year + 1, 1, 1)
  }

  /** The weekday following weekday `w`. */
  function NextWeekday(w: int): int {
    if w == 6 then 0 else w + 1
  }

  /** The weekday `n` days after weekday `w`. */
  function WeekdayAfter(w: int, n: nat): (r: int)
    requires 0 <= w < 7
    ensures 0 <= r < 7
  {
    if n == 0 then w else NextWeekday(WeekdayAfter(w, n - 1))
  }

  /** Counting weekdays one step at a time is arithmetic modulo seven. */
  lemma {:induction false} WeekdayAfterIsModular(w: int, n: nat)
    requires 0 <= w < 7
    ensures WeekdayAfter(w, n) == (w + n) % 7
  {
    if n > 0 {
      WeekdayAfterIsModular(w, n - 1);
    }
  }

  /** The day after `d` falls on the next weekday. */
  lemma NextDayWeekday(d: Date)
    requires ValidDate(d) && NextDay(d).year <= MaxYear
    ensures Weekday(NextDay(d)) == NextWeekday(Weekday(d))
  {
    ModSevenStep(DayNumber(d));
  }

  lemma ModSevenStep(n: int)
    ensures (n + 1) % 7 == NextWeekday(n % 7)
  {
  }

  /**
   * `date + timedelta(days=n)`: the date `n` day numbers later, or `None` where
   * the sum passes `date.max` and Python raises OverflowError.
   */
  function AddDays(d: Date, n: nat): (r: Option<Date>)
    requires ValidDate(d)
    ensures r.Some? ==> ValidDate(r.value) && DayNumber(r.value) == DayNumber(d) + n
    ensures r.Some? ==> Weekday(r.value) == WeekdayAfter(Weekday(d), n)
  {
    if n == 0 then Some(d)
    else
      match AddDays(d, n - 1)
      case None => None
      case Some(before) =>
        var next := NextDay(before);
        if next.year > MaxYear then None else NextDayWeekday(before); Some(next)
  }

  /** A naive `datetime` with whole minutes, as the calendar feed yields them. */
  datatype DateTime = DateTime(date: Date, hour: int, minute: int)

  predicate ValidDateTime(t: DateTime) {
    ValidDate(t.date) && 0 <= t.hour < 24 && 0 <= t.minute < 60
  }

  type Stamp = t: DateTime | ValidDateTime(t) witness DateTime(Date(1, 1, 1), 0, 0)

  /** The instant of a stamp, in seconds since 0001-01-01 00:00. */
  function Instant(t: Stamp): int {
    DayNumber(t.date) * SecondsPerDay + t.hour * 3600 + t.minute * 60
  }

  /**
   * One second past 9999-12-31 23:59:59. The whole seconds a `datetime` can
   * hold are the instants in `[0, EndOfTime)`; arithmetic that leaves them
   * raises OverflowError.
   */
  const EndOfTime := (DayNumber(Date(MaxYear, 12, 31)) + 1) * SecondsPerDay

  predicate Representable(t: int) {
    0 <= t < EndOfTime
  }

  /** Every stamp is a representable instant. */
  lemma StampRepresentable(t: Stamp)
    ensures Representable(Instant(t))
  {
    var last := Date(MaxYear, 12, 31);
    if Earlier(t.date, last) {
      DayNumberOrder(t.date, last);
    } else {
      assert t.date == last;
    }
    DayNumberInYear(t.date);
    if t.date.year > MinYear {
      DaysBeforeYearGrows(MinYear, t.date.year);
    }
  }

  /** An instant splits back into its day number and its time of day. */
  lemma InstantParts(t: Stamp)
    ensures Instant(t) / SecondsPerDay == DayNumber(t.date)
    ensures Instant(t) % SecondsPerDay == t.hour * 3600 + t.minute * 60
  {
  }

  /** Chronological order of stamps, field by field as `datetime` compares them. */
  predicate Precedes(a: DateTime, b: DateTime) {
    || Earlier(a.date, b.date)
    || (a.date == b.date && a.hour < b.hour)
    || (a.date == b.date && a.hour == b.hour && a.minute < b.minute)
  }

  /** `Precedes` is a strict total order: asymmetric, and transitive through "not after". */
  lemma PrecedesOrder(a: DateTime, b: DateTime, c: DateTime)
    ensures Precedes(a, b) ==> !Precedes(b, a)
    ensures Precedes(a, b) && !Precedes(c, b) ==> Precedes(a, c)
    ensures !Precedes(b, a) && !Precedes(c, b) ==> !Precedes(c, a)
  {
  }

  lemma {:induction false} DaysBeforeMonthGrows(y: int, m1: int, m2: int)
    requires 1 <= m1 < m2 <= 12
    ensures DaysBeforeMonth(y, m1) + DaysInMonth(y, m1) <= DaysBeforeMonth(y, m2)
    decreases m2 - m1
  {
    DaysBeforeNextMonth(y, m1);
    if m1 + 1 < m2 {
      DaysBeforeMonthGrows(y, m1 + 1, m2);
    }
  }

  lemma {:induction false} DaysBeforeYearGrows(y1: int, y2: int)
    requires MinYear <= y1 < y2
    ensures DaysBeforeYear(y1) + DaysInYear(y1) <= DaysBeforeYear(y2)
    decreases y2 - y1
  {
    if y1 + 1 < y2 {
      DaysBeforeYearGrows(y1 + 1, y2);
    }
  }

  /** A valid date lies inside its year: its day number stays below the next year's first. */
  lemma DayNumberInYear(d: Date)
    requires ValidDate(d)
    ensures DaysBeforeYear(d.year) <= DayNumber(d) < DaysBeforeYear(d.year) + DaysInYear(d.year)
  {
    if d.month < 12 {
      DaysBeforeMonthGrows(d.year, d.month, 12);
    }
  }

  /** Day numbers follow the calendar order of dates. */
  lemma DayNumberOrder(a: Date, b: Date)
    requires ValidDate(a) && ValidDate(b) && Earlier(a, b)
    ensures DayNumber(a) < DayNumber(b)
  {
    if a.year < b.year {
      DayNumberInYear(a);
      DayNumberInYear(b);
      DaysBeforeYearGrows(a.year, b.year);
    } else if a.month < b.month {
      DaysBeforeMonthGrows(a.year, a.month, b.month);
    }
  }

  /** Instants order stamps exactly as `datetime` comparison does. */
  lemma InstantOrder(a: Stamp, b: Stamp)
    ensures Precedes(a, b) <==> Instant(a) < Instant(b)
    ensures a == b <==> Instant(a) == Instant(b)
  {
    if Earlier(a.date, b.date) {
      DayNumberOrder(a.date, b.date);
    } else if Earlier(b.date, a.date) {
      DayNumberOrder(b.date, a.date);
    }
  }

  /** `date.strftime("%Y-%m-%d")` for a four-digit year. */
  function DateIso(d: Date): (s: string)
    requires ValidDate(d)
    ensures |s| == 10
  {
    assert Pow10(2) == 100 && Pow10(4) == 10000;
    Digits(d.year, 4) + "-" + Digits(d.month, 2) + "-" + Digits(d.day, 2)
  }

  /** What the `%m` directive of `strptime` accepts: `1`..`9` or `01`..`12`. */
  predicate MonthField(f: string) {
    || (|f| == 1 && IsDigit(f[0]) && f[0] != '0')
    || (|f| == 2 && AllDigits(f) && 1 <= NatOf(f) <= 12)
  }

  /** What the `%d` directive of `strptime` accepts: `1`..`9`, `01`..`31` or a space and `1`..`9`. */
  predicate DayField(f: string) {
    || (|f| == 1 && IsDigit(f[0]) && f[0] != '0')
    || (|f| == 2 && AllDigits(f) && 1 <= NatOf(f) <= 31)
    || (|f| == 2 && f[0] == ' ' && IsDigit(f[1]) && f[1] != '0')
  }

  function FieldValue(f: string): nat
    requires DayField(f) || MonthField(f)
  {
    if f[0] == ' ' then DigitValue(f[1]) else NatOf(f)
  }

  /**
   * `datetime.strptime(s, "%Y-%m-%d")`: four digits, a dash, a month, a dash and
   * a day, and nothing after; the date must exist. `None` where it raises ValueError.
   */
  function ParseYmd(s: string): (r: Option<Date>)
    ensures r.Some? ==> ValidDate(r.value)
  {
    if |s| < 5 || !AllDigits(s[..4]) || s[4] != '-' || '-' !in s[5..] then None
    else
      var monthText, dayText := UpTo(s[5..], '-'), AfterFirst(s[5..], '-');
      if !MonthField(monthText) || !DayField(dayText) then None
      else
        var d := Date(NatOf(s[..4]), FieldValue(monthText), FieldValue(dayText));
        if ValidDate(d) then Some(d) else None
  }

  /** What `%H` accepts: one digit, or two digits up to 23. */
  predicate HourField(f: string) {
    || (|f| == 1 && IsDigit(f[0]))
    || (|f| == 2 && AllDigits(f) && NatOf(f) <= 23)
  }

  /** What `%M` accepts at the end of the text: one digit, or two digits up to 59. */
  predicate MinuteField(f: string) {
    || (|f| == 1 && IsDigit(f[0]))
    || (|f| == 2 && AllDigits(f) && f[0] <= '5')
  }

  /** The value of a one- or two-digit field, digit by digit. */
  lemma NatOfShort(f: string)
    requires 1 <= |f| <= 2 && AllDigits(f)
    ensures NatOf(f) == if |f| == 1 then DigitValue(f[0]) else DigitValue(f[0]) * 10 + DigitValue(f[1])
  {
    assert f[..|f| - 1][..0] == [];
    if |f| == 2 {
      assert f[..1] == [f[0]];
    }
  }

  /** `datetime.strptime(s, "%H:%M").time()` as seconds after midnight; `None` where it raises. */
  function ParseClock(s: string): (r: Option<int>)
    ensures r.Some? ==> 0 <= r.value < SecondsPerDay && r.value % 60 == 0
  {
    if ':' !in s then None
    else
      var hourText, minuteText := UpTo(s, ':'), AfterFirst(s, ':');
      if HourField(hourText) && MinuteField(minuteText) then
        NatOfShort(hourText);
        NatOfShort(minuteText);
        Some(NatOf(hourText) * 3600 + NatOf(minuteText) * 60)
      else None
  }

  /** `time.strftime("%H:%M")`. */
  function ClockText(hour: nat, minute: nat): string
    requires hour < 24 && minute < 60
  {
    Digits(hour, 2) + ":" + Digits(minute, 2)
  }

  lemma DigitsHaveNo(n: nat, width: nat, c: char)
    requires !IsDigit(c)
    ensures c !in Digits(n, width)
  {
  }

  /** The two-digit month and day fields of a formatted date read back as the month and the day. */
  lemma DateFieldsRead(d: Date)
    requires ValidDate(d)
    ensures MonthField(Digits(d.month, 2)) && FieldValue(Digits(d.month, 2)) == d.month
    ensures DayField(Digits(d.day, 2)) && FieldValue(Digits(d.day, 2)) == d.day
  {
    assert Pow10(2) == 100;
    var m, dd := Digits(d.month, 2), Digits(d.day, 2);
    assert IsDigit(m[0]) && IsDigit(dd[0]);
  }

  /** Reading back a formatted date gives the date: `strptime(strftime(d))`. */
  lemma ParseYmdOfDateIso(d: Date)
    requires ValidDate(d)
    ensures ParseYmd(DateIso(d)) == Some(d)
  {
    assert Pow10(4) == 10000;
    var y, m, dd := Digits(d.year, 4), Digits(d.month, 2), Digits(d.day, 2);
    var s := DateIso(d);
    assert s == y + "-" + (m + "-" + dd);
    assert s[..4] == y && s[4] == '-' && s[5..] == m + "-" + dd;
    DigitsHaveNo(d.month, 2, '-');
    SplitAtFirst(m, dd, '-');
    DateFieldsRead(d);
  }

  /** Two dates with the same `YYYY-MM-DD` text are the same date. */
  lemma DateIsoInjective(d1: Date, d2: Date)
    requires ValidDate(d1) && ValidDate(d2)
    ensures DateIso(d1) == DateIso(d2) ==> d1 == d2
  {
    ParseYmdOfDateIso(d1);
    ParseYmdOfDateIso(d2);
  }

  /** Reading back a formatted time of day gives its seconds after midnight. */
  lemma ParseClockOfClockText(hour: nat, minute: nat)
    requires hour < 24 && minute < 60
    ensures ParseClock(ClockText(hour, minute)) == Some(hour * 3600 + minute * 60)
  {
    assert Pow10(2) == 100;
    var h, m := Digits(hour, 2), Digits(minute, 2);
    DigitsHaveNo(hour, 2, ':');
    SplitAtFirst(h, m, ':');
    assert HourField(h);
    assert MinuteField(m) by {
      NatOfShort(m);
    }
  }

  /** Months counted from year 0, so that "one month later" is "index plus one". */
  function MonthIndex(d: Date): int {
    d.year * 12 + d.month - 1
  }

  /**
   * The journal windows' "previous month" step: `replace(year=y-1, month=12)` in
   * January, `replace(month=m-1)` otherwise, keeping the day. `None` where
   * `replace` raises ValueError: the day does not exist in the target month, or
   * the year leaves 1..9999.
   */
  function PrevMonth(d: Date): (r: Option<Date>)
    requires ValidDate(d)
    ensures r.Some? ==> ValidDate(r.value) && r.value.day == d.day
    ensures r.Some? ==> MonthIndex(r.value) == MonthIndex(d) - 1
    ensures r.None? <==>
      (d.month == 1 && d.year == MinYear) ||
      d.day > DaysInMonth(if d.month == 1 then d.year - 1 else d.year, if d.month == 1 then 12 else d.month - 1)
  {
    var target := if d.month == 1 then Date(d.year - 1, 12, d.day) else Date(d.year, d.month - 1, d.day);
    if ValidDate(target) then Some(target) else None
  }

  /** The "next month" step: `replace(year=y+1, month=1)` in December, `replace(month=m+1)` otherwise. */
  function NextMonth(d: Date): (r: Option<Date>)
    requires ValidDate(d)
    ensures r.Some? ==> ValidDate(r.value) && r.value.day == d.day
    ensures r.Some? ==> MonthIndex(r.value) == MonthIndex(d) + 1
    ensures r.None? <==>
      (d.month == 12 && d.year == MaxYear) ||
      d.day > DaysInMonth(if d.month == 12 then d.year + 1 else d.year, if d.month == 12 then 1 else d.month + 1)
  {
    var target := if d.month == 12 then Date(d.year + 1, 1, d.day) else Date(d.year, d.month + 1, d.day);
    if ValidDate(target) then Some(target) else None
  }

  /** A step forward that succeeds is undone by a step back, and the other way round. */
  lemma NavigationRoundTrip(d: Date)
    requires ValidDate(d)
    ensures NextMonth(d).Some? ==> PrevMonth(NextMonth(d).value) == Some(d)
    ensures PrevMonth(d).Some? ==> NextMonth(PrevMonth(d).value) == Some(d)
  {
  }

  /** Navigating onto a day that the shorter target month lacks raises, as `replace` does; December carries into January. */
  lemma NavigationFailsOnMissingDay()
    ensures NextMonth(Date(2025, 1, 31)) == None
    ensures PrevMonth(Date(2024, 3, 30)) == None
    ensures NextMonth(Date(2025, 12, 15)) == Some(Date(2026, 1, 15))
  {
  }
}
