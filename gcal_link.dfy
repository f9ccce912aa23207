/**
 * The "add to Google Calendar" link of `calendar.py`: the `dates` parameter
 * (`_format_dates_for_gcal`) and the link itself (`build_gcal_link`). The date
 * recognisers are shared with the iCalendar export. The clock (today in KST and
 * the current year) is passed in.
 */
module GcalLink {
  import opened Wrappers
  import opened Text
  import opened Civil
  import opened DateText
  import opened Ics
  import opened Percent

  /** `"~" in s or "∼" in s or "부터" in s or "까지" in s`. */
  predicate MentionsRange(s: string) {
    '~' in s || '∼' in s || Contains(s, "부터") || Contains(s, "까지")
  }

  /** `":" in s or "시" in s`. */
  predicate MentionsTime(s: string) {
    ':' in s || '시' in s
  }

  lemma NotContained(s: string, sub: string)
    requires sub != [] && sub[0] !in s
    ensures !Contains(s, sub)
  {
  }

  /** `start/end`: each half a run of digits, with one `T` for a date and time. */
  lemma TwoHalves(a: string, b: string)
    requires '/' !in a && '/' !in b
    ensures Split(a + "/" + b, '/') == [a, b]
  {
    SplitCons(a, '/', b);
  }

  lemma DigitsNoSlash(s: string)
    requires AllDigits(s)
    ensures '/' !in s
  {
    forall k | 0 <= k < |s| ensures s[k] != '/' {
      assert IsDigit(s[k]);
    }
  }

  lemma CompactNoSlash(y: nat, m: nat, d: nat)
    ensures '/' !in CompactInts(y, m, d)
  {
    DigitsNoSlash(PadNat(y, 4));
    DigitsNoSlash(PadNat(m, 2));
    DigitsNoSlash(PadNat(d, 2));
  }

  lemma StampNoSlash(t: DateTime)
    requires ValidDateTime(t)
    ensures '/' !in StrfDate(t.date) && '/' !in StrfCompact(t)
  {
    DigitsNoSlash(NatToString(t.date.year));
    DigitsNoSlash(PadNat(t.date.month, 2));
    DigitsNoSlash(PadNat(t.date.day, 2));
    DigitsNoSlash(PadNat(t.hour, 2));
    DigitsNoSlash(PadNat(t.minute, 2));
    DigitsNoSlash(PadNat(t.second, 2));
  }

  /** Step 1: a range, written `YYYYMMDD/YYYYMMDD` with the end date itself. */
  function RangeDates(raw: string, currentYear: nat): (r: Result<Option<string>>)
    ensures r.Ok? && r.value.Some? ==> |Split(r.value.value, '/')| == 2
    ensures ParseDateRange(raw, currentYear).None? <==> r == Ok(None)
    ensures r.Raised? ==> r.error == ValueError
  {
    match ParseDateRange(raw, currentYear)
    case None => Ok(None)
    case Some((a, b)) =>
      match YmdInts(a)
      case Raised(e) => Raised(e)
      case Ok((y1, m1, d1)) =>
        match YmdInts(b)
        case Raised(e) => Raised(e)
        case Ok((y2, m2, d2)) =>
          CompactNoSlash(y1, m1, d1);
          CompactNoSlash(y2, m2, d2);
          TwoHalves(CompactInts(y1, m1, d1), CompactInts(y2, m2, d2));
          Ok(Some(CompactInts(y1, m1, d1) + "/" + CompactInts(y2, m2, d2)))
  }

  /** A start and the hour after it, as `YYYYMMDDTHHMMSS/YYYYMMDDTHHMMSS`. */
  function HourSlot(t: DateTime): (r: Result<string>)
    requires ValidDateTime(t)
    ensures r.Raised? <==> t.date == Date(MaxYear, 12, 31) && t.hour == 23
    ensures r.Ok? ==>
      && AddHour(t).Ok? && Seconds(AddHour(t).value) == Seconds(t) + 3600
      && Split(r.value, '/') == [StrfCompact(t), StrfCompact(AddHour(t).value)]
  {
    match AddHour(t)
    case Raised(e) => Raised(e)
    case Ok(u) =>
      AddHourSeconds(t);
      StampNoSlash(t);
      StampNoSlash(u);
      TwoHalves(StrfCompact(t), StrfCompact(u));
      Ok(StrfCompact(t) + "/" + StrfCompact(u))
  }

  /** Step 2: a date and an `H:MM` time, read with `map(int, …)`; a time of three fields
      fails to unpack and raises. */
  function ClockDates(raw: string, currentYear: nat): (r: Result<Option<string>>)
    ensures r.Ok? && r.value.Some? ==> |Split(r.value.value, '/')| == 2
    ensures ParseDatetime(raw, currentYear).None? ==> r == Ok(None)
    ensures r.Ok? && r.value.Some? ==> ParseDatetime(raw, currentYear).Some?
  {
    match ParseDatetime(raw, currentYear)
    case None => Ok(None)
    case Some((date, time)) => ClockFrom(date, time)
  }

  /** Step 2 once the date and the time text are found. */
  function ClockFrom(date: string, time: string): (r: Result<Option<string>>)
    ensures r.Ok? && r.value.Some? ==> |Split(r.value.value, '/')| == 2
    ensures ':' !in time ==> r.Raised? || r == Ok(None)
  {
    match YmdInts(date)
    case Raised(e) => Raised(e)
    case Ok((y, m, d)) =>
      if ':' !in time then Ok(None)
      else if !ClockParses(time, y, m, d) then Raised(ValueError)
      else
        match HourSlot(ClockStart(time, y, m, d))
        case Raised(e) => Raised(e)
        case Ok(s) => Ok(Some(s))
  }

  /** Step 3: one day, `YYYYMMDD/` and the day after. */
  function DayDates(s: string): (r: Result<string>)
    ensures r.Ok? ==> |Split(r.value, '/')| == 2
  {
    match YmdInts(s)
    case Raised(e) => Raised(e)
    case Ok((y, m, d)) =>
      match MakeDate(y, m, d)
      case Raised(e) => Raised(e)
      case Ok(day) =>
        match NextDay(day)
        case Raised(e) => Raised(e)
        case Ok(next) =>
          CompactNoSlash(y, m, d);
          StampNoSlash(DateTime(next, 0, 0, 0));
          TwoHalves(CompactInts(y, m, d), StrfDate(next));
          Ok(CompactInts(y, m, d) + "/" + StrfDate(next))
  }

  /** Step 4: nine to ten in the morning of the posting date, or of today when the
      posting date does not parse. */
  function PostedSlot(posted: string, today: Date): (r: string)
    requires ValidDate(today)
    ensures |Split(r, '/')| == 2
  {
    var day := ToDate(posted).GetOr(today);
    var start := DateTime(day, 9, 0, 0);
    var s := HourSlot(start);
    s.value
  }

  /** `_format_dates_for_gcal`: the `dates` parameter, `None` when there is no date at all. */
  function FormatDates(item: Item, today: Date, currentYear: nat): (r: Result<Option<string>>)
    requires ValidDate(today)
    ensures r == Ok(None) ==> CleanDate(item.postedAt).None?
    ensures !Truthy(item.deadline) && CleanDate(item.postedAt).None? ==> r == Ok(None)
    ensures r.Ok? && r.value.Some? ==> |Split(r.value.value, '/')| == 2
  {
    var fromRange :=
      if Truthy(item.deadline) && MentionsRange(item.deadline.value) then RangeDates(item.deadline.value, currentYear)
      else Ok(None);
    match fromRange
    case Raised(e) => Raised(e)
    case Ok(Some(dates)) => Ok(Some(dates))
    case Ok(None) =>
      var fromClock :=
        if Truthy(item.deadline) && MentionsTime(item.deadline.value) then ClockDates(item.deadline.value, currentYear)
        else Ok(None);
      match fromClock
      case Raised(e) => Raised(e)
      case Ok(Some(dates)) => Ok(Some(dates))
      case Ok(None) =>
        match CleanDate(DeadlineValue(item))
        case Some(day) =>
          (match DayDates(day)
           case Raised(e) => Raised(e)
           case Ok(dates) => Ok(Some(dates)))
        case None =>
          match CleanDate(item.postedAt)
          case None => Ok(None)
          case Some(p) => Ok(Some(PostedSlot(p, today)))
  }

  /** Text without the marks of steps 1 and 2 skips both. */
  lemma Unmarked(s: string)
    requires '~' !in s && '∼' !in s && '부' !in s && '까' !in s && ':' !in s && '시' !in s
    ensures !MentionsRange(s) && !MentionsTime(s)
  {
    NotContained(s, "부터");
    NotContained(s, "까지");
  }

  /** An ISO date is one day: `YYYYMMDD/` and the day after. */
  lemma DayDatesIso(d: Date)
    requires ValidDate(d) && d != Date(MaxYear, 12, 31)
    ensures NextDay(d).Ok? && DayNumber(NextDay(d).value) == DayNumber(d) + 1
    ensures DayDates(IsoDate(d)) == Ok(CompactInts(d.year, d.month, d.day) + "/" + StrfDate(NextDay(d).value))
  {
    YmdIntsIso(d);
    NextDayNumber(d);
  }

  /** A deadline written as an ISO date gives that day and the day after, the same
      `DTSTART` and `DTEND` values as the iCalendar event (`IsoDeadlineOneDay`). */
  lemma IsoDeadlineDates(item: Item, today: Date, currentYear: nat, d: Date)
    requires ValidDate(today) && ValidDate(d) && d != Date(MaxYear, 12, 31)
    requires item.deadline == Some(IsoDate(d))
    ensures NextDay(d).Ok? && DayNumber(NextDay(d).value) == DayNumber(d) + 1
    ensures FormatDates(item, today, currentYear)
      == Ok(Some(CompactInts(d.year, d.month, d.day) + "/" + StrfDate(NextDay(d).value)))
  {
    var s := IsoDate(d);
    IsoUnmarked(d);
    CleanIso(d);
    DayDatesIso(d);
    PlainDeadlineDates(item, today, currentYear, s);
  }

  /** An ISO date names neither a range nor a time. */
  lemma IsoUnmarked(d: Date)
    requires ValidDate(d)
    ensures IsoDate(d) != [] && !MentionsRange(IsoDate(d)) && !MentionsTime(IsoDate(d))
  {
    var s := IsoDate(d);
    IsoDateShape(d);
    assert '~' !in s && '∼' !in s && '부' !in s && '까' !in s && ':' !in s && '시' !in s;
    Unmarked(s);
  }

  /** A deadline that names no range and no time is read as one day. */
  lemma PlainDeadlineDates(item: Item, today: Date, currentYear: nat, day: string)
    requires ValidDate(today) && Truthy(item.deadline)
    requires !MentionsRange(item.deadline.value) && !MentionsTime(item.deadline.value)
    requires CleanText(item.deadline.value) == Some(day) && DayDates(day).Ok?
    ensures FormatDates(item, today, currentYear) == Ok(Some(DayDates(day).value))
  {
    assert CleanDate(DeadlineValue(item)) == Some(day);
  }

  /** Without a deadline, a posting date `YYYY-MM-DD` gives a 09:00 to 10:00 slot that day. */
  lemma PostedDates(item: Item, today: Date, currentYear: nat, p: Date)
    requires ValidDate(today) && ValidDate(p)
    requires !Truthy(item.deadline) && CleanDate(item.postedAt) == Some(IsoDate(p))
    ensures FormatDates(item, today, currentYear)
      == Ok(Some(StrfCompact(DateTime(p, 9, 0, 0)) + "/" + StrfCompact(DateTime(p, 10, 0, 0))))
  {
    StrptimeIsoDate(p);
  }

  /** A deadline range whose ends normalise to ISO dates gives `YYYYMMDD/YYYYMMDD`, the end
      being the last day itself, as in the iCalendar event (`RangeDeadlineLastDay`). */
  lemma RangeDeadlineDates(item: Item, today: Date, currentYear: nat, s: Date, e: Date)
    requires ValidDate(today) && ValidDate(s) && ValidDate(e)
    requires Truthy(item.deadline) && MentionsRange(item.deadline.value)
    requires ParseDateRange(item.deadline.value, currentYear) == Some((IsoDate(s), IsoDate(e)))
    ensures FormatDates(item, today, currentYear)
      == Ok(Some(CompactInts(s.year, s.month, s.day) + "/" + CompactInts(e.year, e.month, e.day)))
  {
    YmdIntsIso(s);
    YmdIntsIso(e);
  }

  /** The `H:MM` text of a date and time reads as an hour and a minute that, on day
      `y-m-d`, form a valid date and time. */
  predicate ClockParses(time: string, y: nat, m: nat, d: nat) {
    var hm := Split(time, ':');
    && |hm| == 2 && ParseInt(hm[0]).Some? && ParseInt(hm[1]).Some?
    && ValidDateTime(DateTime(Date(y, m, d), ParseInt(hm[0]).value, ParseInt(hm[1]).value, 0))
  }

  /** The start of a date and time whose clock parses. */
  function ClockStart(time: string, y: nat, m: nat, d: nat): (t: DateTime)
    requires ClockParses(time, y, m, d)
    ensures ValidDateTime(t) && t.date == Date(y, m, d) && t.second == 0
  {
    var hm := Split(time, ':');
    DateTime(Date(y, m, d), ParseInt(hm[0]).value, ParseInt(hm[1]).value, 0)
  }

  /** Step 2 on a date and an `H:MM` time: the hour slot from the parsed start, or
      `ValueError` when the clock does not parse. */
  lemma ClockFromSlot(date: string, time: string, y: nat, m: nat, d: nat)
    requires YmdInts(date) == Ok((y, m, d)) && ':' in time
    ensures !ClockParses(time, y, m, d) ==> ClockFrom(date, time) == Raised(ValueError)
    ensures ClockParses(time, y, m, d) ==>
      match HourSlot(ClockStart(time, y, m, d))
      case Raised(e) => ClockFrom(date, time) == Raised(e)
      case Ok(v) => ClockFrom(date, time) == Ok(Some(v))
  {
  }

  /** With no range found, a deadline naming a time is decided by step 2 whenever that
      step yields a value or raises. */
  lemma ClockDecides(item: Item, today: Date, currentYear: nat)
    requires ValidDate(today) && Truthy(item.deadline)
    requires ParseDateRange(item.deadline.value, currentYear).None?
    requires ClockDates(item.deadline.value, currentYear) != Ok(None)
    requires ParseDatetime(item.deadline.value, currentYear).Some?
    ensures FormatDates(item, today, currentYear) == match ClockDates(item.deadline.value, currentYear)
      case Raised(e) => Raised(e)
      case Ok(v) => Ok(v)
  {
    var raw := item.deadline.value;
    if ':' !in raw {
      DatetimeNeedsColon(raw, currentYear);
    }
    assert MentionsTime(raw);
  }

  /**
   * A deadline that is no range but a date and an `H:MM` time gives the start and the
   * hour after it, `YYYYMMDDTHHMMSS/YYYYMMDDTHHMMSS`, 3600 seconds apart. It raises
   * `ValueError` when the time does not read as a valid clock, and `OverflowError`
   * exactly in the last hour of 9999-12-31.
   */
  lemma ClockDeadlineOneHour(item: Item, today: Date, currentYear: nat, date: string, time: string, y: nat, m: nat, d: nat)
    requires ValidDate(today) && Truthy(item.deadline)
    requires ParseDateRange(item.deadline.value, currentYear).None?
    requires ParseDatetime(item.deadline.value, currentYear) == Some((date, time))
    requires YmdInts(date) == Ok((y, m, d)) && ':' in time
    ensures !ClockParses(time, y, m, d) ==> FormatDates(item, today, currentYear) == Raised(ValueError)
    ensures ClockParses(time, y, m, d) ==>
      var t := ClockStart(time, y, m, d);
      && (FormatDates(item, today, currentYear).Raised? <==> t.date == Date(MaxYear, 12, 31) && t.hour == 23)
      && (FormatDates(item, today, currentYear).Ok? ==>
            && AddHour(t).Ok? && Seconds(AddHour(t).value) == Seconds(t) + 3600
            && FormatDates(item, today, currentYear) == Ok(Some(StrfCompact(t) + "/" + StrfCompact(AddHour(t).value))))
  {
    var raw := item.deadline.value;
    ClockFromSlot(date, time, y, m, d);
    var c := ClockFrom(date, time);
    assert ClockDates(raw, currentYear) == c;
    assert c != Ok(None);
    ClockDecides(item, today, currentYear);
    if ClockParses(time, y, m, d) {
      var t := ClockStart(time, y, m, d);
      if AddHour(t).Ok? {
        AddHourSeconds(t);
      }
    }
  }

  /** Text without `-` is one piece when split at `-`, so it is no `Y-M-D` date. */
  lemma UndashedDay(s: string)
    requires '-' !in s
    ensures DayDates(s) == Raised(ValueError)
  {
    assert Split(s, '-') == [s];
  }

  /** A dotted deadline such as `2024.12.31` reaches the single-date step, whose split at
      `-` yields one piece, so building the link raises. */
  lemma DottedDeadlineDates(item: Item, today: Date, currentYear: nat)
    requires ValidDate(today) && Truthy(item.deadline) && CleanText(item.deadline.value).Some?
    requires var s := item.deadline.value;
      '-' !in s && '~' !in s && '∼' !in s && '부' !in s && '까' !in s && ':' !in s && '시' !in s
    ensures FormatDates(item, today, currentYear) == Raised(ValueError)
  {
    var raw := item.deadline.value;
    Unmarked(raw);
    StripMembers(raw);
    UndashedDay(Strip(raw));
  }

  // ---------------------------------------------------------------- the link

  const RenderUrl: string := "https://calendar.google.com/calendar/render?"

  /** `quote` keeps `/`, `T` and `:` in `dates`, and nothing extra elsewhere. */
  const DatesSafe: string := "/T:-_."
  const TextSafe: string := "-_.~"

  /** The `details` text: category, posting date, link, then a blank line and the summary. */
  function Details(item: Item): string {
    var cat := Strip(OrEmpty(item.category));
    var link := Strip(OrEmpty(item.link));
    var posted := CleanDate(item.postedAt);
    var head := (if cat != [] then ["[카테고리] " + cat] else [])
      + (if posted.Some? then ["[게시일] " + posted.value] else [])
      + (if link != [] then [link] else []);
    var lines := if Truthy(item.summary) then (if head != [] then head + [""] else head) + [item.summary.value] else head;
    Join(lines, "\n")
  }

  /** The query pairs in the order the link writes them. */
  function LinkQuery(title: string, dates: string, details: string, tzid: string): seq<(string, string)> {
    [("action", "TEMPLATE"),
     ("text", Quote(title, TextSafe)),
     ("dates", Quote(dates, DatesSafe)),
     ("details", Quote(details, TextSafe)),
     ("ctz", Quote(tzid, TextSafe))]
  }

  /** The query always starts with `action=TEMPLATE`. */
  lemma LinkQueryStarts(title: string, dates: string, details: string, tzid: string)
    ensures StartsWith(QueryString(LinkQuery(title, dates, details, tzid)), "action=TEMPLATE")
  {
    var q := LinkQuery(title, dates, details, tzid);
    assert q[0] == ("action", "TEMPLATE");
    QueryStartsWithFirst(q);
    ActionField();
  }

  lemma PrefixStartsWith(p: string, s: string, t: string)
    requires StartsWith(s, t)
    ensures StartsWith(p + s, p + t)
  {
    assert (p + s)[..|p + t|] == p + s[..|t|];
  }

  lemma ActionField()
    ensures "action" + "=" + "TEMPLATE" == "action=TEMPLATE"
  {
  }

  /** No key or value of the link's query holds `&` or `=`. */
  lemma SafeSets()
    ensures SafeSet(TextSafe) && SafeSet(DatesSafe)
  {
  }

  lemma TemplateAscii()
    ensures Unquote("TEMPLATE") == Utf8("TEMPLATE")
  {
    UnquoteAscii("TEMPLATE");
  }

  lemma LinkQueryPlain(title: string, dates: string, details: string, tzid: string)
    ensures forall k :: 0 <= k < |LinkQuery(title, dates, details, tzid)| ==> Plain(LinkQuery(title, dates, details, tzid)[k])
  {
    var q := LinkQuery(title, dates, details, tzid);
    SafeSets();
    KeysPlain();
    assert Plain(q[0]) && Plain(q[1]) && Plain(q[2]) && Plain(q[3]) && Plain(q[4]);
  }

  lemma KeysPlain()
    ensures Plain(("action", "TEMPLATE"))
    ensures forall k | k in ["text", "dates", "details", "ctz"] :: '&' !in k && '=' !in k
  {
  }

  /** The link's query reads back as the title, dates, details and time zone, each as the
      UTF-8 bytes of the text, with the empty ones left out. */
  lemma LinkQueryDecodes(title: string, dates: string, details: string, tzid: string)
    ensures DecodeQuery(QueryString(LinkQuery(title, dates, details, tzid))) ==
      [("action", Utf8("TEMPLATE"))]
      + ((if title != [] then [("text", Utf8(title))] else [])
      + ((if dates != [] then [("dates", Utf8(dates))] else [])
      + ((if details != [] then [("details", Utf8(details))] else [])
      + (if tzid != [] then [("ctz", Utf8(tzid))] else []))))
  {
    var q := LinkQuery(title, dates, details, tzid);
    LinkQueryPlain(title, dates, details, tzid);
    QueryStartsWithFirst(q);
    QueryRoundTrip(q);
    KeptFive(q);
    TemplateAscii();
    SafeSets();
    UnquoteQuote(title, TextSafe);
    UnquoteQuote(dates, DatesSafe);
    UnquoteQuote(details, TextSafe);
    UnquoteQuote(tzid, TextSafe);
  }

  /** `build_gcal_link`: `""` when there is no date, otherwise the render URL. */
  function BuildGcalLink(item: Item, tzid: string, today: Date, currentYear: nat): (r: Result<string>)
    requires ValidDate(today)
    ensures r.Ok? ==> (r.value == "" <==> FormatDates(item, today, currentYear) == Ok(None))
    ensures r.Ok? && r.value != "" ==> StartsWith(r.value, RenderUrl + "action=TEMPLATE")
  {
    match FormatDates(item, today, currentYear)
    case Raised(e) => Raised(e)
    case Ok(None) => Ok("")
    case Ok(Some(dates)) =>
      var title := Strip(if Truthy(item.title) then item.title.value else "제목 없음");
      var q := QueryString(LinkQuery(title, dates, Details(item), tzid));
      LinkQueryStarts(title, dates, Details(item), tzid);
      PrefixStartsWith(RenderUrl, q, "action=TEMPLATE");
      Ok(RenderUrl + q)
  }
}
