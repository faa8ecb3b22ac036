/**
 * The economic-calendar client: each record of the weekly feed is kept or
 * dropped (currency, impact, date, future), kept records become events, the
 * events are ordered by time and stored in a cache keyed by currency and
 * today's date for 300 seconds.
 *
 * The two entry points share the cache: `fetch_high_impact_events` returns the
 * earliest new event on a miss but the whole cached list on a hit, and
 * `get_high_impact_news` returns the ordered list.
 */
module NewsApi {
  import opened Base
  import opened Strings
  import opened Calendar

  /** `self.cache_ttl`, in seconds. */
  const CacheTtl: real := 300.0
  const DefaultTitle := "Economic Event"
  const HighImpact := "High"

  /** A value of a decoded JSON record: a missing key, `null`, or a string. */
  datatype Field = Absent | Null | Text(s: string)

  /** One record of the feed, by the keys the client reads. */
  datatype RawRecord = RawRecord(
    title: Field,
    country: Field,
    date: Field,
    impact: Field,
    actual: Field,
    forecast: Field,
    previous: Field)

  /** `actual`, `forecast` and `previous` as `str(...)` of the record's values. */
  datatype Quotes = Quotes(actual: string, forecast: string, previous: string)

  /**
   * A kept event. `quotes` is present in events built by `fetch_high_impact_events`
   * and absent in those of `get_high_impact_news`; the `time` and `day_name` keys
   * are the formatted `at`.
   */
  datatype Event = Event(title: Option<string>, at: Stamp, currency: string, impact: string, quotes: Option<Quotes>)

  /** Which of the two loops builds the events; they differ in the country test and the quotes. */
  datatype Path = FetchPath | ListPath

  /** `event.get('title', 'Economic Event')`: `None` stands for a JSON `null`. */
  function TitleOf(f: Field): (t: Option<string>)
    ensures f.Null? <==> t.None?
    ensures f.Absent? ==> t == Some(DefaultTitle)
  {
    match f
    case Absent => Some(DefaultTitle)
    case Null => None
    case Text(s) => Some(s)
  }

  /** `str(event.get(key, ''))`. */
  function StrOf(f: Field): string {
    match f
    case Absent => ""
    case Null => "None"
    case Text(s) => s
  }

  /**
   * The currency test. `fetch_high_impact_events` drops a missing, null or empty
   * country and compares the rest ignoring case. `get_high_impact_news` upper-cases
   * the value directly: a missing country reads as `""` and a `null` raises,
   * which drops the record.
   */
  predicate CountryMatches(country: Field, currency: string, path: Path) {
    match path
    case FetchPath => country.Text? && country.s != "" && Upper(country.s) == Upper(currency)
    case ListPath =>
      match country
      case Absent => Upper(currency) == ""
      case Null => false
      case Text(s) => Upper(s) == Upper(currency)
  }

  /** `s.isdigit()` for the text `int()` is given: a non-empty run of decimal digits. */
  predicate IntText(s: string) {
    s != [] && AllDigits(s)
  }

  /**
   * The clock part of an ISO text: the `HH:MM` at the front, midnight when there
   * is no `:`, `None` where `int()` or `replace` raises.
   */
  function ParseHourMinute(timePart: string): (r: Option<(nat, nat)>)
    ensures r.Some? ==> r.value.0 < 24 && r.value.1 < 60
    ensures ':' !in timePart ==> r == Some((0, 0))
  {
    if ':' !in timePart then Some((0, 0))
    else
      var hourText := UpTo(timePart, ':');
      var minuteText := UpTo(AfterFirst(timePart, ':'), ':');
      if IntText(hourText) && IntText(minuteText) && NatOf(hourText) < 24 && NatOf(minuteText) < 60
      then Some((NatOf(hourText), NatOf(minuteText)))
      else None
  }

  /** `s.split('T')[1].split('-')[0].split('+')[0]`: what follows the first `T`, up to an offset. */
  function IsoTimePart(s: string): (t: string)
    requires 'T' in s
    ensures 'T' !in t && '-' !in t && '+' !in t
  {
    UpTo(UpTo(UpTo(AfterFirst(s, 'T'), 'T'), '-'), '+')
  }

  /**
   * The date parse of one record. With a `T`: the date before it and the clock
   * part after it, an offset dropped. Without a `T`: the date at 12:00. `None`
   * where `strptime`, `int` or `replace` raises.
   */
  function ParseEventDate(s: string): (r: Option<Stamp>)
    ensures r.Some? ==> ParseYmd(UpTo(s, 'T')) == Some(r.value.date)
    ensures r.Some? && 'T' !in s ==> r.value.hour == 12 && r.value.minute == 0
    ensures r.Some? && 'T' in s ==> ParseHourMinute(IsoTimePart(s)) == Some((r.value.hour, r.value.minute))
  {
    match ParseYmd(UpTo(s, 'T'))
    case None => None
    case Some(d) =>
      if 'T' !in s then Some(StampAt(d, 12, 0))
      else
        match ParseHourMinute(IsoTimePart(s))
        case None => None
        case Some(hm) => Some(StampAt(d, hm.0, hm.1))
  }

  /** The stamp of a valid date at a valid time of day. */
  function StampAt(d: Date, hour: nat, minute: nat): (t: Stamp)
    requires ValidDate(d) && hour < 24 && minute < 60
    ensures t.date == d && t.hour == hour && t.minute == minute
  {
    DateTime(d, hour, minute)
  }

  lemma UpToKeepsHead(y: string, c: char)
    requires y != [] && y[0] != c
    ensures UpTo(y, c) != [] && UpTo(y, c)[0] == y[0]
  {
  }

  lemma DateIsoHasNo(d: Date, c: char)
    requires ValidDate(d) && !IsDigit(c) && c != '-'
    ensures c !in DateIso(d)
  {
    DigitsHaveNo(d.year, 4, c);
    DigitsHaveNo(d.month, 2, c);
    DigitsHaveNo(d.day, 2, c);
  }

  /** The offset cut of `IsoTimePart` keeps a separator-free front and a tail that starts at `:`. */
  lemma IsoTail(front: string, rest: string) returns (tail: string)
    requires 'T' !in front && '-' !in front && '+' !in front
    requires rest == [] || rest[0] in ":-+T"
    ensures UpTo(UpTo(UpTo(front + rest, 'T'), '-'), '+') == front + tail
    ensures tail == [] || tail[0] == ':'
  {
    UpToAppend(front, rest, 'T');
    var r1 := UpTo(rest, 'T');
    UpToAppend(front, r1, '-');
    var r2 := UpTo(r1, '-');
    UpToAppend(front, r2, '+');
    tail := UpTo(r2, '+');
    if rest != [] && rest[0] == ':' {
      UpToKeepsHead(rest, 'T');
      UpToKeepsHead(r1, '-');
      UpToKeepsHead(r2, '+');
    }
  }

  /** `HH:MM` followed by nothing or by `:SS` reads back as its hour and minute. */
  lemma ClockPartReads(hour: nat, minute: nat, tail: string)
    requires hour < 24 && minute < 60
    requires tail == [] || tail[0] == ':'
    ensures ParseHourMinute(ClockText(hour, minute) + tail) == Some((hour, minute))
  {
    var hh, mm := Digits(hour, 2), Digits(minute, 2);
    assert Pow10(2) == 100;
    DigitsHaveNo(hour, 2, ':');
    DigitsHaveNo(minute, 2, ':');
    var t := ClockText(hour, minute) + tail;
    assert t == hh + [':'] + (mm + tail);
    SplitAtFirst(hh, mm + tail, ':');
    UpToAppend(mm, tail, ':');
    assert UpTo(tail, ':') == [];
    assert mm + [] == mm;
    NatOfShort(hh);
    NatOfShort(mm);
  }

  /**
   * An ISO timestamp `YYYY-MM-DDTHH:MM` followed by seconds or an offset
   * (`:SS`, `-04:00`, `+01:00`, ...) keeps its date, hour and minute and loses the rest.
   */
  lemma ParseIsoTimestamp(d: Date, hour: nat, minute: nat, rest: string)
    requires ValidDate(d) && hour < 24 && minute < 60
    requires rest == [] || rest[0] in ":-+T"
    ensures ParseEventDate(DateIso(d) + "T" + ClockText(hour, minute) + rest) == Some(DateTime(d, hour, minute))
  {
    var iso, clock := DateIso(d), ClockText(hour, minute);
    var s := iso + "T" + clock + rest;
    DateIsoHasNo(d, 'T');
    assert s == iso + ['T'] + (clock + rest);
    SplitAtFirst(iso, clock + rest, 'T');
    ParseYmdOfDateIso(d);
    DigitsHaveNo(hour, 2, 'T');
    DigitsHaveNo(hour, 2, '-');
    DigitsHaveNo(hour, 2, '+');
    DigitsHaveNo(minute, 2, 'T');
    DigitsHaveNo(minute, 2, '-');
    DigitsHaveNo(minute, 2, '+');
    var tail := IsoTail(clock, rest);
    ClockPartReads(hour, minute, tail);
  }

  /** A date-only text is placed at noon. */
  lemma ParseDateOnly(d: Date)
    requires ValidDate(d)
    ensures ParseEventDate(DateIso(d)) == Some(DateTime(d, 12, 0))
  {
    var iso := DateIso(d);
    DateIsoHasNo(d, 'T');
    UpToAppend(iso, [], 'T');
    assert iso + [] == iso;
    ParseYmdOfDateIso(d);
  }

  /** The stamp of a record: a non-empty `date` text that parses. */
  function RecordStamp(rec: RawRecord): Option<Stamp> {
    match rec.date
    case Text(s) => if s == "" then None else ParseEventDate(s)
    case _ => None
  }

  /**
   * The per-record decision of either loop: the event built from `rec`, or
   * `None` when the record is skipped (wrong currency, impact other than `High`,
   * missing or unparseable date, or not strictly after `now`).
   */
  function Keep(rec: RawRecord, currency: string, now: Stamp, path: Path): (r: Option<Event>)
    ensures r.Some? <==>
      && CountryMatches(rec.country, currency, path)
      && rec.impact == Text(HighImpact)
      && RecordStamp(rec).Some?
      && Precedes(now, RecordStamp(rec).value)
    ensures r.Some? ==>
      && r.value.at == RecordStamp(rec).value
      && r.value.title == TitleOf(rec.title)
      && r.value.currency == Upper(currency)
      && r.value.impact == HighImpact
      && (r.value.quotes.Some? <==> path == FetchPath)
  {
    if !CountryMatches(rec.country, currency, path) || rec.impact != Text(HighImpact) then None
    else
      match RecordStamp(rec)
      case None => None
      case Some(at) =>
        if !Precedes(now, at) then None
        else
          var quotes := if path == FetchPath
            then Some(Quotes(StrOf(rec.actual), StrOf(rec.forecast), StrOf(rec.previous)))
            else None;
          Some(Event(TitleOf(rec.title), at, Upper(currency), HighImpact, quotes))
  }

  /** The events the loop collects from `records`, in feed order. */
  function Matching(records: seq<RawRecord>, currency: string, now: Stamp, path: Path): (r: seq<Event>)
    ensures |r| <= |records|
    ensures forall e :: e in r ==> e.impact == HighImpact && e.currency == Upper(currency) && Precedes(now, e.at)
    ensures forall e :: e in r ==> exists rec :: rec in records && Keep(rec, currency, now, path) == Some(e)
    ensures forall rec :: rec in records && Keep(rec, currency, now, path).Some? ==>
      Keep(rec, currency, now, path).value in r
  {
    if records == [] then []
    else
      var front := records[..|records| - 1];
      var last := records[|records| - 1];
      assert forall rec :: rec in records ==> rec in front || rec == last;
      var r := Matching(front, currency, now, path);
      match Keep(last, currency, now, path)
      case Some(e) => r + [e]
      case None => r
  }

  /**
   * The events come in feed order, one per kept record, duplicates included:
   * one more record appends its event, if it is kept, after all the others.
   */
  lemma MatchingAppend(records: seq<RawRecord>, rec: RawRecord, currency: string, now: Stamp, path: Path)
    ensures Matching(records + [rec], currency, now, path) ==
      Matching(records, currency, now, path) +
      (if Keep(rec, currency, now, path).Some? then [Keep(rec, currency, now, path).value] else [])
  {
    assert (records + [rec])[..|records|] == records;
  }

  /** `MatchingAppend` at the i-th record of a feed, for a loop over it. */
  lemma MatchingStep(records: seq<RawRecord>, i: int, currency: string, now: Stamp, path: Path)
    requires 0 <= i < |records|
    ensures Matching(records[..i + 1], currency, now, path) ==
      Matching(records[..i], currency, now, path) +
      (if Keep(records[i], currency, now, path).Some? then [Keep(records[i], currency, now, path).value] else [])
  {
    assert records[..i + 1] == records[..i] + [records[i]];
    MatchingAppend(records[..i], records[i], currency, now, path);
  }

  predicate SortedByTime(s: seq<Event>) {
    forall i, j :: 0 <= i < j < |s| ==> !Precedes(s[j].at, s[i].at)
  }

  /** Inserts `e` after every event not later than it. */
  function InsertByTime(e: Event, s: seq<Event>): (r: seq<Event>)
    requires SortedByTime(s)
    ensures SortedByTime(r)
    ensures |r| == |s| + 1
    ensures r[0] == if s == [] || Precedes(e.at, s[0].at) then e else s[0]
  {
    if s == [] then [e]
    else if Precedes(e.at, s[0].at) then
      var r := [e] + s;
      assert r[1..] == s;
      r
    else
      var tail := InsertByTime(e, s[1..]);
      var r := [s[0]] + tail;
      assert r[1..] == tail;
      assert !Precedes(tail[0].at, s[0].at);
      assert forall j :: 1 <= j < |r| ==> !Precedes(r[j].at, r[1].at);
      r
  }

  /** The insertion adds `e` and loses nothing. */
  lemma {:induction false} InsertByTimePermutes(e: Event, s: seq<Event>)
    requires SortedByTime(s)
    ensures multiset(InsertByTime(e, s)) == multiset(s) + multiset{e}
  {
    if s != [] && !Precedes(e.at, s[0].at) {
      InsertByTimePermutes(e, s[1..]);
      assert s == [s[0]] + s[1..];
    }
  }

  /** `list.sort(key=lambda x: x['datetime'])`: a stable sort by time. */
  function SortByTime(s: seq<Event>): (r: seq<Event>)
    ensures SortedByTime(r)
    ensures multiset(r) == multiset(s)
    ensures |r| == |s|
  {
    if s == [] then []
    else
      var front := SortByTime(s[..|s| - 1]);
      assert s == s[..|s| - 1] + [s[|s| - 1]];
      InsertByTimePermutes(s[|s| - 1], front);
      InsertByTime(s[|s| - 1], front)
  }

  /** `s[i]` is the first event of `s` with the smallest time. */
  predicate FirstEarliest(s: seq<Event>, i: int) {
    && 0 <= i < |s|
    && (forall j :: 0 <= j < |s| ==> !Precedes(s[j].at, s[i].at))
    && (forall j :: 0 <= j < i ==> Precedes(s[i].at, s[j].at))
  }

  /** Appending an event keeps the first earliest event unless the new one is strictly earlier. */
  lemma FirstEarliestAppend(front: seq<Event>, last: Event, i: int)
    requires FirstEarliest(front, i)
    ensures Precedes(last.at, front[i].at) ==> FirstEarliest(front + [last], |front|)
    ensures !Precedes(last.at, front[i].at) ==> FirstEarliest(front + [last], i)
  {
    var s := front + [last];
    PrecedesOrder(last.at, last.at, last.at);
    if Precedes(last.at, front[i].at) {
      forall j | 0 <= j < |front|
        ensures Precedes(last.at, s[j].at) && !Precedes(s[j].at, last.at)
      {
        PrecedesOrder(last.at, front[i].at, front[j].at);
        PrecedesOrder(last.at, front[j].at, last.at);
      }
    }
  }

  /** Because the sort is stable, its head is the first of the earliest events. */
  lemma {:induction false} SortHeadIsFirstEarliest(s: seq<Event>)
    requires s != []
    ensures exists i :: FirstEarliest(s, i) && SortByTime(s)[0] == s[i]
  {
    var front, last := s[..|s| - 1], s[|s| - 1];
    assert s == front + [last];
    var t := SortByTime(front);
    assert SortByTime(s) == InsertByTime(last, t);
    if front == [] {
      assert FirstEarliest(s, 0);
    } else {
      SortHeadIsFirstEarliest(front);
      var i :| FirstEarliest(front, i) && t[0] == front[i];
      FirstEarliestAppend(front, last, i);
      if Precedes(last.at, t[0].at) {
        assert SortByTime(s)[0] == s[|front|];
      } else {
        assert SortByTime(s)[0] == s[i];
      }
    }
  }

  /** What `fetch_high_impact_events` gives back. */
  datatype FetchResult =
    | NextEvent(event: Event)
    | NoEvent
    | CachedList(events: seq<Event>)

  /** The outcome of the HTTP request and JSON decoding. */
  datatype Feed = Delivered(records: seq<RawRecord>) | Failed

  /** A cache value: `(time.time(), events)`. */
  datatype CacheEntry = CacheEntry(storedAt: real, events: seq<Event>)

  /** `f"{currency}-{today:%Y-%m-%d}"`; the currency is used as given, not upper-cased. */
  function CacheKey(currency: string, today: Date): (k: string)
    requires ValidDate(today)
    ensures |k| == |currency| + 11 && k[..|currency|] == currency
    ensures k[|currency| + 1..] == DateIso(today)
  {
    currency + "-" + DateIso(today)
  }

  /** Two lookups share a cache entry only for the same currency text on the same day. */
  lemma CacheKeyInjective(c1: string, c2: string, d1: Date, d2: Date)
    requires ValidDate(d1) && ValidDate(d2)
    requires CacheKey(c1, d1) == CacheKey(c2, d2)
    ensures c1 == c2 && d1 == d2
  {
    var k := CacheKey(c1, d1);
    assert |c1| == |c2|;
    DateIsoInjective(d1, d2);
  }

  predicate Fresh(entry: CacheEntry, clock: real) {
    clock - entry.storedAt < CacheTtl
  }

  /** A cache lookup that `fetch_high_impact_events` and `get_high_impact_news` answer from the cache. */
  predicate Hit(cache: map<string, CacheEntry>, key: string, clock: real) {
    key in cache && Fresh(cache[key], clock)
  }

  predicate AllHigh(s: seq<Event>) {
    forall e :: e in s ==> e.impact == HighImpact
  }

  /** The cache invariant: every cached list is ordered by time and holds high-impact events only. */
  predicate CacheValid(cache: map<string, CacheEntry>) {
    forall k :: k in cache ==> SortedByTime(cache[k].events) && AllHigh(cache[k].events)
  }

  /** The list a miss stores: the kept events, ordered by time. */
  function StoredList(records: seq<RawRecord>, currency: string, now: Stamp, path: Path): (s: seq<Event>)
    ensures SortedByTime(s) && AllHigh(s)
    ensures multiset(s) == multiset(Matching(records, currency, now, path))
  {
    var kept := Matching(records, currency, now, path);
    var sorted := SortByTime(kept);
    assert forall e :: e in sorted ==> e in multiset(kept);
    sorted
  }

  /**
   * `fetch_high_impact_events` as a function of the cache, the clocks and the
   * feed: `clock` is `time.time()` at the lookup and `storeClock` at the store.
   * A hit returns the cached list; a failed request returns nothing and leaves
   * the cache alone; otherwise the sorted kept events are stored (the list is
   * sorted in place after it has been put in the cache) and the first of them,
   * if any, is returned.
   */
  function FetchOutcome(cache: map<string, CacheEntry>, currency: string, today: Date, now: Stamp,
                        clock: real, storeClock: real, feed: Feed): (r: (FetchResult, map<string, CacheEntry>))
    requires ValidDate(today) && CacheValid(cache)
    ensures CacheValid(r.1)
    ensures Hit(cache, CacheKey(currency, today), clock) ==>
      r == (CachedList(cache[CacheKey(currency, today)].events), cache)
    ensures !Hit(cache, CacheKey(currency, today), clock) && feed.Failed? ==> r == (NoEvent, cache)
    ensures !Hit(cache, CacheKey(currency, today), clock) && feed.Delivered? ==>
      && r.1 == cache[CacheKey(currency, today) := CacheEntry(storeClock, StoredList(feed.records, currency, now, FetchPath))]
      && !r.0.CachedList?
  {
    var key := CacheKey(currency, today);
    if Hit(cache, key, clock) then (CachedList(cache[key].events), cache)
    else if feed.Failed? then (NoEvent, cache)
    else
      var sorted := StoredList(feed.records, currency, now, FetchPath);
      var cache' := cache[key := CacheEntry(storeClock, sorted)];
      if sorted == [] then (NoEvent, cache') else (NextEvent(sorted[0]), cache')
  }

  /** `get_high_impact_news` as a function: the list is sorted before it is stored and returned. */
  function ListOutcome(cache: map<string, CacheEntry>, currency: string, today: Date, now: Stamp,
                       clock: real, storeClock: real, feed: Feed): (r: (seq<Event>, map<string, CacheEntry>))
    requires ValidDate(today) && CacheValid(cache)
    ensures CacheValid(r.1)
    ensures SortedByTime(r.0) && AllHigh(r.0)
    ensures Hit(cache, CacheKey(currency, today), clock) ==> r == (cache[CacheKey(currency, today)].events, cache)
    ensures !Hit(cache, CacheKey(currency, today), clock) && feed.Failed? ==> r == ([], cache)
    ensures !Hit(cache, CacheKey(currency, today), clock) && feed.Delivered? ==>
      && r.1 == cache[CacheKey(currency, today) := CacheEntry(storeClock, r.0)]
      && multiset(r.0) == multiset(Matching(feed.records, currency, now, ListPath))
  {
    var key := CacheKey(currency, today);
    if Hit(cache, key, clock) then (cache[key].events, cache)
    else if feed.Failed? then ([], cache)
    else
      var sorted := StoredList(feed.records, currency, now, ListPath);
      (sorted, cache[key := CacheEntry(storeClock, sorted)])
  }

  /**
   * On a miss the result is the first, in feed order, of the earliest kept
   * records; which day the caller asked for plays no part.
   */
  lemma MissReturnsFirstEarliest(cache: map<string, CacheEntry>, currency: string, today: Date, now: Stamp,
                                 clock: real, storeClock: real, records: seq<RawRecord>)
    requires ValidDate(today) && CacheValid(cache)
    requires !Hit(cache, CacheKey(currency, today), clock)
    ensures var kept := Matching(records, currency, now, FetchPath);
      var r := FetchOutcome(cache, currency, today, now, clock, storeClock, Delivered(records)).0;
      (kept == [] <==> r == NoEvent) &&
      (kept != [] ==> exists i :: FirstEarliest(kept, i) && r == NextEvent(kept[i]))
  {
    var kept := Matching(records, currency, now, FetchPath);
    if kept != [] {
      SortHeadIsFirstEarliest(kept);
    } else {
      assert StoredList(records, currency, now, FetchPath) == [];
    }
  }

  /** The API client; its one piece of state is the cache. */
  class NewsClient {
    var cache: map<string, CacheEntry>

    predicate Valid()
      reads this
    {
      CacheValid(cache)
    }

    constructor()
      ensures Valid() && cache == map[]
    {
      cache := map[];
    }

    /** The loop of either entry point over the decoded feed. */
    method CollectEvents(records: seq<RawRecord>, currency: string, now: Stamp, path: Path)
      returns (matching: seq<Event>)
      ensures matching == Matching(records, currency, now, path)
    {
      matching := [];
      var i := 0;
      while i < |records|
        invariant 0 <= i <= |records|
        invariant matching == Matching(records[..i], currency, now, path)
      {
        var kept := Keep(records[i], currency, now, path);
        MatchingStep(records, i, currency, now, path);
        matching := matching + if kept.Some? then [kept.value] else [];
        i := i + 1;
      }
      assert records[..i] == records;
    }

    /**
     * `fetch_high_impact_events(currency, target_day)`. `today` and `now` are the
     * two readings of `datetime.now()` (as a date, and taken to the minute, which
     * decides `event_date <= now` exactly since feed times carry no seconds), `clock`
     * and `storeClock` the two readings of `time.time()`; `targetDay` is unused.
     */
    method FetchHighImpactEvents(currency: string, targetDay: string, today: Date, now: Stamp,
                                 clock: real, storeClock: real, feed: Feed) returns (r: FetchResult)
      requires Valid() && ValidDate(today)
      modifies this
      ensures Valid()
      ensures (r, cache) == FetchOutcome(old(cache), currency, today, now, clock, storeClock, feed)
    {
      var key := CacheKey(currency, today);
      if Hit(cache, key, clock) {
        return CachedList(cache[key].events);
      }
      if feed.Failed? {
        return NoEvent;
      }
      var matching := CollectEvents(feed.records, currency, now, FetchPath);
      matching := SortByTime(matching);
      assert matching == StoredList(feed.records, currency, now, FetchPath);
      cache := cache[key := CacheEntry(storeClock, matching)];
      if matching != [] {
        r := NextEvent(matching[0]);
      } else {
        r := NoEvent;
      }
    }

    /** `get_high_impact_news(currency, session)`: `session` is unused. */
    method GetHighImpactNews(currency: string, session: string, today: Date, now: Stamp,
                             clock: real, storeClock: real, feed: Feed) returns (events: seq<Event>)
      requires Valid() && ValidDate(today)
      modifies this
      ensures Valid()
      ensures SortedByTime(events)
      ensures (events, cache) == ListOutcome(old(cache), currency, today, now, clock, storeClock, feed)
    {
      var key := CacheKey(currency, today);
      if Hit(cache, key, clock) {
        return cache[key].events;
      }
      if feed.Failed? {
        return [];
      }
      var matching := CollectEvents(feed.records, currency, now, ListPath);
      events := SortByTime(matching);
      assert events == StoredList(feed.records, currency, now, ListPath);
      cache := cache[key := CacheEntry(storeClock, events)];
    }

    /** `fetch_high_impact_news(currency_code, session)`: hands the session over as the target day. */
    method FetchHighImpactNews(currencyCode: string, session: string, today: Date, now: Stamp,
                               clock: real, storeClock: real, feed: Feed) returns (r: FetchResult)
      requires Valid() && ValidDate(today)
      modifies this
      ensures Valid()
      ensures (r, cache) == FetchOutcome(old(cache), currencyCode, today, now, clock, storeClock, feed)
    {
      r := FetchHighImpactEvents(currencyCode, session, today, now, clock, storeClock, feed);
    }
  }
}
