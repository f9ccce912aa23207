/**
 * The Google Calendar event body of `calendar_OAuth_option.py` (`_build_event_body`):
 * the same notice read as for the iCalendar export, written as `start`/`end`
 * objects with a time zone, a description, the private `autoscheduler_id` and
 * the popup reminders. The API calls that send it are not part of this model.
 */
module EventBody {
  import opened Wrappers
  import opened Text
  import opened Civil
  import opened DateText
  import opened Ics

  /** A `start` or `end` object: a whole day, or a local date and time. */
  datatype When = AllDay(date: string, timeZone: string) | Timed(dateTime: string, timeZone: string)

  datatype Reminder = Reminder(kind: string, minutes: int)

  /** One day, three hours and thirty minutes before the start. */
  const DefaultReminders: seq<Reminder> :=
    [Reminder("popup", 1440), Reminder("popup", 180), Reminder("popup", 30)]

  /** The event resource; `reminders.useDefault` is always false. A reminder's `kind` is the API's `method` field. */
  datatype Body = Body(
    summary: string,
    start: When,
    end: When,
    sourceTitle: string,
    sourceUrl: Option<string>,
    description: Option<string>,
    extId: string,
    useDefault: bool,
    overrides: seq<Reminder>)

  /** The description: unlike the iCalendar one, the blank line before the summary is
      written even when nothing precedes it, and it is not escaped. */
  function DescriptionText(item: Item): Option<string> {
    var lines := DescriptionHead(item) + (if Truthy(item.summary) then ["", item.summary.value] else []);
    if lines != [] then Some(Join(lines, "\n")) else None
  }

  /** The two descriptions agree, before escaping, when a category or a link is present;
      a summary alone is prefixed with a newline in the event body only. */
  lemma DescriptionsCompared(item: Item)
    ensures DescriptionText(item).None? <==> DescriptionLines(item) == []
    ensures DescriptionHead(item) != [] ==> DescriptionText(item) == Some(Join(DescriptionLines(item), "\n"))
    ensures DescriptionHead(item) == [] && Truthy(item.summary) ==>
      DescriptionLines(item) == [item.summary.value] && DescriptionText(item) == Some("\n" + item.summary.value)
  {
    var head := DescriptionHead(item);
    if Truthy(item.summary) {
      var s := item.summary.value;
      assert head + [""] + [s] == head + ["", s];
      if head == [] {
        assert head + [s] == [s] && head + ["", s] == ["", s];
        JoinAfterBlank(s);
      }
    } else {
      assert head + [] == head;
    }
  }

  lemma JoinAfterBlank(s: string)
    ensures Join(["", s], "\n") == "\n" + s
  {
    assert ["", s][1..] == [s];
  }

  /** `{"date": …}` for a day and the day after it; the end is `date.isoformat()`. */
  function DayWhens(s: string, tzid: string): Result<(When, When)> {
    match YmdInts(s)
    case Raised(e) => Raised(e)
    case Ok((y, m, d)) =>
      match MakeDate(y, m, d)
      case Raised(e) => Raised(e)
      case Ok(day) =>
        match NextDay(day)
        case Raised(e) => Raised(e)
        case Ok(next) => Ok((AllDay(DashedInts(y, m, d), tzid), AllDay(IsoDate(next), tzid)))
  }

  /** An ISO date gives that day and the following one. */
  lemma DayWhensIso(d: Date, tzid: string)
    requires ValidDate(d)
    ensures DayWhens(IsoDate(d), tzid).Raised? <==> d == Date(MaxYear, 12, 31)
    ensures DayWhens(IsoDate(d), tzid).Ok? ==>
      && NextDay(d).Ok? && DayNumber(NextDay(d).value) == DayNumber(d) + 1
      && DayWhens(IsoDate(d), tzid).value == (AllDay(IsoDate(d), tzid), AllDay(IsoDate(NextDay(d).value), tzid))
  {
    YmdIntsIso(d);
    if NextDay(d).Ok? {
      NextDayNumber(d);
    }
  }

  /** `{"dateTime": …}` for the text `{date}T{time}:00` as it was built, and one hour later
      written by `strftime`; the text itself must parse for the end to be computed. */
  function TimedWhens(date: string, time: string, tzid: string): (r: Result<(When, When)>)
    ensures r.Ok? ==>
      && StrptimeDateTime(date + "T" + time + ":00").Some?
      && var t := StrptimeDateTime(date + "T" + time + ":00").value;
      && AddHour(t).Ok? && Seconds(AddHour(t).value) == Seconds(t) + 3600
      && r.value.1 == Timed(StrfIso(AddHour(t).value), tzid)
    ensures r.Ok? ==> r.value.0 == Timed(date + "T" + time + ":00", tzid)
    ensures r.Raised? <==>
      || StrptimeDateTime(date + "T" + time + ":00").None?
      || (var t := StrptimeDateTime(date + "T" + time + ":00").value; t.date == Date(MaxYear, 12, 31) && t.hour == 23)
  {
    var text := date + "T" + time + ":00";
    match StrptimeDateTime(text)
    case None => Raised(ValueError)
    case Some(t) =>
      match AddHour(t)
      case Raised(e) => Raised(e)
      case Ok(u) => AddHourSeconds(t); Ok((Timed(text, tzid), Timed(StrfIso(u), tzid)))
  }

  /** The start and end a truthy deadline gives: a range, else a date and time, else a
      single date; `None` when the deadline names no date at all. */
  function DeadlineWhens(raw: string, tzid: string, currentYear: nat): Result<Option<(When, When)>> {
    var s := Strip(raw);
    match ParseDateRange(s, currentYear)
    case Some((a, b)) => Ok(Some((AllDay(a, tzid), AllDay(b, tzid))))
    case None =>
      match ParseDatetime(s, currentYear)
      case Some((date, time)) =>
        (match TimedWhens(date, time, tzid)
         case Raised(e) => Raised(e)
         case Ok(w) => Ok(Some(w)))
      case None =>
        match CleanText(raw)
        case None => Ok(None)
        case Some(day) =>
          match DayWhens(day, tzid)
          case Raised(e) => Raised(e)
          case Ok(w) => Ok(Some(w))
  }

  /** The deadline's start and end; whenever it gives none, the posting date's. */
  function ScheduleWhens(item: Item, tzid: string, currentYear: nat): Result<Option<(When, When)>> {
    var fromDeadline := if Truthy(item.deadline) then DeadlineWhens(item.deadline.value, tzid, currentYear) else Ok(None);
    match fromDeadline
    case Raised(e) => Raised(e)
    case Ok(Some(w)) => Ok(Some(w))
    case Ok(None) =>
      match CleanDate(item.postedAt)
      case None => Ok(None)
      case Some(p) =>
        match DayWhens(p, tzid)
        case Raised(e) => Raised(e)
        case Ok(w) => Ok(Some(w))
  }

  /** `_build_event_body`: `None` when no date is found, else the event resource. */
  function BuildEventBody(item: Item, tzid: string, reminders: Option<seq<Reminder>>,
                          digest: string -> B32Digest, currentYear: nat): (r: Result<Option<Body>>)
    ensures r == Ok(None) <==>
      && (!Truthy(item.deadline) || DeadlineWhens(item.deadline.value, tzid, currentYear) == Ok(None))
      && CleanDate(item.postedAt).None?
    ensures r.Ok? && r.value.Some? ==>
      && r.value.value.extId == ExtId(item, digest)
      && !r.value.value.useDefault
      && r.value.value.overrides == (if reminders.None? then DefaultReminders else reminders.value)
  {
    if !Truthy(item.deadline) && CleanDate(item.postedAt).None? then Ok(None)
    else
      match ScheduleWhens(item, tzid, currentYear)
      case Raised(e) => Raised(e)
      case Ok(None) => Ok(None)
      case Ok(Some((start, end))) =>
        var link := Strip(OrEmpty(item.link));
        Ok(Some(Body(
          Title(item), start, end,
          Or(Strip(OrEmpty(item.source)), "AutoScheduler"),
          if link != [] then Some(link) else None,
          DescriptionText(item),
          ExtId(item, digest),
          false,
          reminders.GetOr(DefaultReminders))))
  }

  /** The words `_clean_date` reads as empty are short and hold neither `월` nor `:`. */
  lemma NullWordShape(s: string)
    requires Lower(s) in NullWords
    ensures |s| < 17 && '월' !in s && ':' !in s
  {
    var l := Lower(s);
    assert l == "null" || l == "none" || l == "nan";
    forall k | 0 <= k < |s| ensures s[k] != '월' && s[k] != ':' {
      assert l[k] == LowerChar(s[k]);
    }
  }

  /** A deadline that `_clean_date` reads as empty (blank, `null`, `none`, `nan`) is neither
      a range nor a date and time. */
  lemma NullDeadlineNoDates(raw: string, currentYear: nat)
    requires CleanText(raw).None?
    ensures ParseDateRange(Strip(raw), currentYear).None? && ParseDatetime(Strip(raw), currentYear).None?
  {
    var s := Strip(raw);
    if s != [] {
      NullWordShape(s);
      RangeNeedsLength(s, currentYear);
      DatetimeNeedsColon(s, currentYear);
    }
  }

  /** With such a deadline and a posting date, the event body falls back to the posting
      date while the iCalendar event has no DTSTART or DTEND line at all. */
  lemma NullDeadlineExporters(item: Item, tzid: string, reminders: Option<seq<Reminder>>,
                              digest: string -> B32Digest, currentYear: nat, p: Date)
    requires Truthy(item.deadline) && CleanText(item.deadline.value).None?
    requires ValidDate(p) && p != Date(MaxYear, 12, 31) && CleanDate(item.postedAt) == Some(IsoDate(p))
    ensures ScheduleLines(item, currentYear) == Ok([])
    ensures BuildEventBody(item, tzid, reminders, digest, currentYear).Ok?
    ensures BuildEventBody(item, tzid, reminders, digest, currentYear).value.Some?
    ensures BuildEventBody(item, tzid, reminders, digest, currentYear).value.value.start == AllDay(IsoDate(p), tzid)
  {
    NullDeadlineNoDates(item.deadline.value, currentYear);
    DayWhensIso(p, tzid);
  }

  /** An ISO date deadline takes the single-date branch of the event body too. */
  lemma IsoDeadlineWhens(d: Date, tzid: string, currentYear: nat)
    requires ValidDate(d)
    ensures DeadlineWhens(IsoDate(d), tzid, currentYear) ==
      match DayWhens(IsoDate(d), tzid)
      case Raised(e) => Raised(e)
      case Ok(w) => Ok(Some(w))
  {
    var s := IsoDate(d);
    IsoDateShape(d);
    CleanIso(d);
    assert Strip(s) == s;
    assert '월' !in s && ':' !in s;
    RangeNeedsLength(s, currentYear);
    DatetimeNeedsColon(s, currentYear);
  }

  /** For a deadline written as an ISO date the event body runs from that day to the day
      after, the same days as the iCalendar event (`IsoDeadlineOneDay`). */
  lemma IsoDeadlineBody(item: Item, tzid: string, reminders: Option<seq<Reminder>>,
                        digest: string -> B32Digest, currentYear: nat, d: Date)
    requires ValidDate(d) && d != Date(MaxYear, 12, 31) && item.deadline == Some(IsoDate(d))
    ensures NextDay(d).Ok? && DayNumber(NextDay(d).value) == DayNumber(d) + 1
    ensures BuildEventBody(item, tzid, reminders, digest, currentYear).Ok?
    ensures BuildEventBody(item, tzid, reminders, digest, currentYear).value.Some?
    ensures var b := BuildEventBody(item, tzid, reminders, digest, currentYear).value.value;
      b.start == AllDay(IsoDate(d), tzid) && b.end == AllDay(IsoDate(NextDay(d).value), tzid)
  {
    IsoDeadlineSchedule(item, tzid, currentYear, d);
  }

  lemma IsoDeadlineSchedule(item: Item, tzid: string, currentYear: nat, d: Date)
    requires ValidDate(d) && d != Date(MaxYear, 12, 31) && item.deadline == Some(IsoDate(d))
    ensures Truthy(item.deadline)
    ensures NextDay(d).Ok? && DayNumber(NextDay(d).value) == DayNumber(d) + 1
    ensures ScheduleWhens(item, tzid, currentYear) == Ok(Some((AllDay(IsoDate(d), tzid), AllDay(IsoDate(NextDay(d).value), tzid))))
  {
    IsoDateShape(d);
    IsoDeadlineWhens(d, tzid, currentYear);
    DayWhensIso(d, tzid);
  }
}
