/**
 * The iCalendar export of `calendar_OAuth_option.py`: TEXT escaping and CRLF
 * content lines (RFC 5545, sections 3.1 and 3.3.11), the event identifier,
 * one VEVENT per item and the VCALENDAR document with duplicate UIDs dropped.
 *
 * SHA-1 and base32 are not part of this model: the identifier takes the
 * base32 text of the digest from a function passed in. The clock (`DTSTAMP`
 * and the current year for `M월 D일` dates) is passed in as well.
 */
module Ics {
  import opened Wrappers
  import opened Text
  import opened Civil
  import opened DateText

  /** A notice as the exporter reads it; absent keys and JSON nulls are `None`. */
  datatype Item = Item(
    title: Option<string>,
    link: Option<string>,
    source: Option<string>,
    category: Option<string>,
    postedAt: Value,
    deadline: Option<string>,
    summary: Option<string>)

  /** The base32 alphabet of RFC 4648, section 6. */
  predicate IsBase32(c: char) {
    'A' <= c <= 'Z' || '2' <= c <= '7'
  }

  /** `base64.b32encode` of a 20-byte SHA-1 digest: 32 characters and no `=` padding. */
  type B32Digest = s: string | |s| == 32 && forall k :: 0 <= k < |s| ==> IsBase32(s[k])
    witness "AAAAAAAAAAAAAAAAAAAAAAAAAAAAAAAA"

  /** What the exporter takes from the outside world. */
  datatype Env = Env(digest: string -> B32Digest, stamp: PyDateTime, currentYear: nat)

  /** `(x or "")` on an optional string. */
  function OrEmpty(o: Option<string>): string {
    o.GetOr("")
  }

  /** Python's `a or b` on strings. */
  function Or(a: string, b: string): string {
    if a != [] then a else b
  }

  /** Whether an optional string is truthy. */
  predicate Truthy(o: Option<string>) {
    o.Some? && o.value != []
  }

  // ---------------------------------------------------------------- escaping

  /** `s.replace("\r\n", "\n")`: non-overlapping, left to right. */
  function ReplaceCrlf(s: string): (r: string)
    decreases |s|
  {
    if |s| < 2 then s
    else if s[0] == '\r' && s[1] == '\n' then "\n" + ReplaceCrlf(s[2..])
    else [s[0]] + ReplaceCrlf(s[1..])
  }

  /** CRLF and lone CR both become LF. */
  function NormalizeNewlines(s: string): (r: string)
    ensures '\r' !in r
  {
    ReplaceChar(ReplaceCrlf(s), '\r', "\n")
  }

  /** The escape of one character, as the chain of replacements leaves it. */
  function EscapeChar(c: char): string {
    if c == '\\' then "\\\\"
    else if c == '\n' then "\\n"
    else if c == ',' then "\\,"
    else if c == ';' then "\\;"
    else [c]
  }

  function EscapeEach(t: string): (r: string)
    ensures '\n' !in r
    ensures '\r' !in t ==> '\r' !in r
    decreases |t|
  {
    if t == [] then "" else EscapeChar(t[0]) + EscapeEach(t[1..])
  }

  /** The four `str.replace` calls of `_ics_escape`, in their order. */
  function ReplaceChain(t: string): string {
    ReplaceChar(ReplaceChar(ReplaceChar(ReplaceChar(t, '\\', "\\\\"), '\n', "\\n"), ',', "\\,"), ';', "\\;")
  }

  /**
   * `_ics_escape`: newlines normalised, then backslash, newline, comma and
   * semicolon escaped. The result is one physical line, and unescaping it gives
   * the text back up to the newline normalisation.
   */
  function IcsEscape(text: string): (r: string)
    ensures '\r' !in r && '\n' !in r
    ensures Unescape(r) == NormalizeNewlines(text)
  {
    var t := NormalizeNewlines(text);
    ChainEscapesEach(t);
    UnescapeEscape(t);
    ReplaceChain(t)
  }

  /** The chain of replacements escapes each character on its own. */
  lemma {:induction false} ChainEscapesEach(t: string)
    ensures ReplaceChain(t) == EscapeEach(t)
    decreases |t|
  {
    if t != [] {
      ChainEscapesEach(t[1..]);
      var c := t[0];
      assert t == [c] + t[1..];
      var a1 := ReplaceChar([c], '\\', "\\\\");
      var b1 := ReplaceChar(t[1..], '\\', "\\\\");
      ReplaceCharAppend([c], t[1..], '\\', "\\\\");
      var a2 := ReplaceChar(a1, '\n', "\\n");
      var b2 := ReplaceChar(b1, '\n', "\\n");
      ReplaceCharAppend(a1, b1, '\n', "\\n");
      var a3 := ReplaceChar(a2, ',', "\\,");
      var b3 := ReplaceChar(b2, ',', "\\,");
      ReplaceCharAppend(a2, b2, ',', "\\,");
      ReplaceCharAppend(a3, b3, ';', "\\;");
      EscapeOne(c);
    }
  }

  lemma EscapeOne(c: char)
    ensures ReplaceChain([c]) == EscapeChar(c)
  {
    if c == '\\' {
      var a1 := ReplaceChar([c], '\\', "\\\\");
      assert a1 == "\\\\";
      assert ReplaceChar(a1, '\n', "\\n") == a1;
      assert ReplaceChar(a1, ',', "\\,") == a1;
      assert ReplaceChar(a1, ';', "\\;") == a1;
    } else if c == '\n' {
      var a2 := ReplaceChar([c], '\n', "\\n");
      assert a2 == "\\n";
      assert ReplaceChar(a2, ',', "\\,") == a2;
      assert ReplaceChar(a2, ';', "\\;") == a2;
    } else if c == ',' {
      assert ReplaceChar(",", ',', "\\,") == "\\,";
      assert ReplaceChar("\\,", ';', "\\;") == "\\,";
    } else if c == ';' {
      assert ReplaceChar(";", ';', "\\;") == "\\;";
    }
  }

  /** Reading an escaped TEXT value back: `\n` is a newline, `\x` is `x`. */
  function Unescape(s: string): string
    decreases |s|
  {
    if s == [] then ""
    else if s[0] == '\\' && |s| >= 2 then (if s[1] == 'n' then "\n" else [s[1]]) + Unescape(s[2..])
    else [s[0]] + Unescape(s[1..])
  }

  lemma {:induction false} UnescapeEscape(t: string)
    ensures Unescape(EscapeEach(t)) == t
    decreases |t|
  {
    if t != [] {
      var c := t[0];
      var rest := EscapeEach(t[1..]);
      UnescapeEscape(t[1..]);
      var e := EscapeChar(c) + rest;
      if c == '\\' || c == '\n' || c == ',' || c == ';' {
        assert e[0] == '\\' && e[2..] == rest;
      } else {
        assert e[0] == c && e[1..] == rest;
      }
      assert t == [c] + t[1..];
    }
  }

  // ---------------------------------------------------------------- content lines

  /** `_crlf_join`: the lines joined with CRLF, plus a final CRLF. */
  function CrlfJoin(lines: seq<string>): string {
    Join(lines, "\r\n") + "\r\n"
  }

  /** Every line followed by its own CRLF. */
  function Terminated(lines: seq<string>): string
    decreases |lines|
  {
    if lines == [] then "" else lines[0] + "\r\n" + Terminated(lines[1..])
  }

  /** Every content line, the last included, ends with CRLF (RFC 5545, section 3.1). */
  lemma {:induction false} CrlfJoinTerminates(lines: seq<string>)
    requires lines != []
    ensures CrlfJoin(lines) == Terminated(lines)
    decreases |lines|
  {
    if |lines| > 1 {
      CrlfJoinTerminates(lines[1..]);
    }
  }

  lemma {:induction false} TerminatedAppend(a: seq<string>, b: seq<string>)
    ensures Terminated(a + b) == Terminated(a) + Terminated(b)
    decreases |a|
  {
    if a == [] {
      assert a + b == b;
    } else {
      assert (a + b)[1..] == a[1..] + b;
      TerminatedAppend(a[1..], b);
    }
  }

  /** The lines framed by a first and a last line start and end with them. */
  lemma Framed(first: string, middle: seq<string>, last: string)
    ensures StartsWith(CrlfJoin([first] + middle + [last]), first + "\r\n")
    ensures EndsWith(CrlfJoin([first] + middle + [last]), last + "\r\n")
  {
    var lines := [first] + middle + [last];
    CrlfJoinTerminates(lines);
    TerminatedAppend([first] + middle, [last]);
    TerminatedAppend([first], middle);
    assert Terminated([last]) == last + "\r\n";
    assert Terminated([first]) == first + "\r\n";
  }

  // ---------------------------------------------------------------- identifiers

  /** `s.rstrip(c)`. */
  function TrimEndChar(s: string, c: char): (r: string)
    ensures |r| <= |s| && r == s[..|r|]
    ensures r != [] ==> r[|r| - 1] != c
    ensures c !in s ==> r == s
    decreases |s|
  {
    if s != [] && s[|s| - 1] == c then TrimEndChar(s[..|s| - 1], c) else s
  }

  /** What the identifier hashes: the link, a bar, and the deadline or else the title. */
  function ExtKey(item: Item): string {
    OrEmpty(item.link) + "|" + Or(OrEmpty(item.deadline), OrEmpty(item.title))
  }

  /**
   * `_ext_id`: `as_` and the first 24 characters of the lower-cased base32
   * digest of the key, so always 27 characters of letters and digits after the prefix.
   */
  function ExtId(item: Item, digest: string -> B32Digest): (r: string)
    ensures |r| == 27 && r[..3] == "as_"
    ensures forall k :: 3 <= k < 27 ==> ('a' <= r[k] <= 'z') || ('2' <= r[k] <= '7')
  {
    var h := digest(ExtKey(item));
    DigestText(h);
    var low := Lower(TrimEndChar(h, '='));
    "as_" + low[..24]
  }

  /** Base32 text has no padding to strip and lower-cases to letters and the digits 2 to 7. */
  lemma DigestText(h: B32Digest)
    ensures TrimEndChar(h, '=') == h
    ensures forall k :: 0 <= k < 32 ==> ('a' <= Lower(h)[k] <= 'z') || ('2' <= Lower(h)[k] <= '7')
  {
    assert '=' !in h;
  }

  /** Items with the same link and the same deadline-or-title share their identifier. */
  lemma ExtIdByKey(a: Item, b: Item, digest: string -> B32Digest)
    requires OrEmpty(a.link) == OrEmpty(b.link)
    requires Or(OrEmpty(a.deadline), OrEmpty(a.title)) == Or(OrEmpty(b.deadline), OrEmpty(b.title))
    ensures ExtId(a, digest) == ExtId(b, digest)
  {
    assert ExtKey(a) == ExtKey(b);
  }

  /** `_ics_uid`. */
  function IcsUid(item: Item, digest: string -> B32Digest): (r: string)
    ensures |r| == 41 && r[..3] == "as_" && r[27..] == "@autoscheduler"
  {
    ExtId(item, digest) + "@autoscheduler"
  }

  // ---------------------------------------------------------------- one event

  function AllDayLines(start: string, end: string): seq<string> {
    ["DTSTART;VALUE=DATE:" + start, "DTEND;VALUE=DATE:" + end]
  }

  function TimedLines(start: string, end: string): seq<string> {
    ["DTSTART:" + start, "DTEND:" + end]
  }

  /**
   * A single date read with `map(int, s.split("-"))`: the day itself and the
   * day after it, or the error `int()`, `date()` or the day after raises.
   */
  function SingleDayLines(s: string): (r: Result<seq<string>>)
  {
    match YmdInts(s)
    case Raised(e) => Raised(e)
    case Ok((y, m, d)) =>
      match MakeDate(y, m, d)
      case Raised(e) => Raised(e)
      case Ok(day) =>
        match NextDay(day)
        case Raised(e) => Raised(e)
        case Ok(next) => Ok(AllDayLines(CompactInts(y, m, d), StrfDate(next)))
  }

  /** A date and a time: `{date}T{time}:00` read by `strptime`, and one hour later. */
  function DatetimeLines(date: string, time: string): (r: Result<seq<string>>)
  {
    match StrptimeDateTime(date + "T" + time + ":00")
    case None => Raised(ValueError)
    case Some(t) =>
      match AddHour(t)
      case Raised(e) => Raised(e)
      case Ok(u) => Ok(TimedLines(StrfCompact(t), StrfCompact(u)))
  }

  /** The schedule lines for a truthy deadline: a range, else a date and time, else a single date. */
  function DeadlineLines(raw: string, currentYear: nat): (r: Result<seq<string>>)
  {
    var s := Strip(raw);
    match ParseDateRange(s, currentYear)
    case Some((a, b)) => Ok(AllDayLines(ReplaceChar(a, '-', ""), ReplaceChar(b, '-', "")))
    case None =>
      match ParseDatetime(s, currentYear)
      case Some((date, time)) => DatetimeLines(date, time)
      case None =>
        match CleanText(raw)
        case None => Ok([])
        case Some(day) => SingleDayLines(day)
  }

  /** The schedule lines: from the deadline when it is truthy, otherwise from the posting date. */
  function ScheduleLines(item: Item, currentYear: nat): Result<seq<string>> {
    if Truthy(item.deadline) then DeadlineLines(item.deadline.value, currentYear)
    else
      match CleanDate(item.postedAt)
      case Some(p) => SingleDayLines(p)
      case None => Ok([])
  }

  function Title(item: Item): string {
    Or(Strip(OrEmpty(item.title)), "제목 없음")
  }

  /** The category line and the link line, each when present. */
  function DescriptionHead(item: Item): seq<string> {
    var cat := Strip(OrEmpty(item.category));
    var link := Strip(OrEmpty(item.link));
    (if cat != [] then ["[카테고리] " + cat] else []) + (if link != [] then [link] else [])
  }

  /** The description lines: category, link, then a blank line and the summary. */
  function DescriptionLines(item: Item): seq<string> {
    var head := DescriptionHead(item);
    if Truthy(item.summary) then (if head != [] then head + [""] else head) + [item.summary.value]
    else head
  }

  function Description(item: Item): string {
    var lines := DescriptionLines(item);
    if lines != [] then IcsEscape(Join(lines, "\n")) else ""
  }

  /** The properties between `BEGIN:VEVENT` and `END:VEVENT`, in the order they are written. */
  function EventProperties(item: Item, env: Env, schedule: seq<string>): seq<string> {
    var desc := Description(item);
    ["UID:" + IcsUid(item, env.digest),
     "DTSTAMP:" + StrfCompact(env.stamp) + "Z",
     "SUMMARY:" + IcsEscape(Title(item))]
    + schedule
    + (if desc != [] then ["DESCRIPTION:" + desc] else [])
    + ["CATEGORIES:" + IcsEscape(Or(Strip(OrEmpty(item.source)), "AutoScheduler"))]
  }

  /** A VEVENT component holding the given properties. */
  function VEvent(properties: seq<string>): (r: string)
    ensures StartsWith(r, "BEGIN:VEVENT\r\n") && EndsWith(r, "END:VEVENT\r\n")
  {
    Framed("BEGIN:VEVENT", properties, "END:VEVENT");
    CrlfJoin(["BEGIN:VEVENT"] + properties + ["END:VEVENT"])
  }

  /** `_ics_event`: `""` when there is neither a deadline nor a posting date. */
  function IcsEvent(item: Item, env: Env): (r: Result<string>)
    ensures r == Ok("") <==> !Truthy(item.deadline) && CleanDate(item.postedAt).None?
    ensures r.Ok? && r.value != "" ==> StartsWith(r.value, "BEGIN:VEVENT\r\n") && EndsWith(r.value, "END:VEVENT\r\n")
  {
    if !Truthy(item.deadline) && CleanDate(item.postedAt).None? then Ok("")
    else
      match ScheduleLines(item, env.currentYear)
      case Raised(e) => Raised(e)
      case Ok(schedule) => Ok(VEvent(EventProperties(item, env, schedule)))
  }

  // ---------------------------------------------------------------- properties of one event

  /** An ISO date is one day: its DTEND is the following day (DTEND is exclusive, RFC 5545
      section 3.6.1), and 9999-12-31 has no following day. */
  lemma SingleDayIso(d: Date)
    requires ValidDate(d)
    ensures SingleDayLines(IsoDate(d)).Raised? <==> d == Date(MaxYear, 12, 31)
    ensures SingleDayLines(IsoDate(d)).Ok? ==>
      && NextDay(d).Ok? && DayNumber(NextDay(d).value) == DayNumber(d) + 1
      && SingleDayLines(IsoDate(d)).value == AllDayLines(CompactInts(d.year, d.month, d.day), StrfDate(NextDay(d).value))
  {
    YmdIntsIso(d);
    if NextDay(d).Ok? {
      NextDayNumber(d);
    }
  }

  /** An ISO date is neither a range nor a date and time, so it takes the single-date branch. */
  lemma IsoDeadlineSingle(d: Date, currentYear: nat)
    requires ValidDate(d)
    ensures DeadlineLines(IsoDate(d), currentYear) == SingleDayLines(IsoDate(d))
  {
    var s := IsoDate(d);
    IsoDateShape(d);
    CleanIso(d);
    assert Strip(s) == s;
    assert '월' !in s && ':' !in s;
    RangeNeedsLength(s, currentYear);
    DatetimeNeedsColon(s, currentYear);
  }

  /** A deadline written as an ISO date is an all-day event ending the day after. */
  lemma IsoDeadlineOneDay(item: Item, d: Date, currentYear: nat)
    requires ValidDate(d) && item.deadline == Some(IsoDate(d))
    ensures ScheduleLines(item, currentYear).Raised? <==> d == Date(MaxYear, 12, 31)
    ensures ScheduleLines(item, currentYear).Ok? ==>
      && NextDay(d).Ok? && DayNumber(NextDay(d).value) == DayNumber(d) + 1
      && ScheduleLines(item, currentYear).value
         == AllDayLines(CompactInts(d.year, d.month, d.day), StrfDate(NextDay(d).value))
  {
    IsoDateShape(d);
    DeadlineSchedule(item, currentYear);
    IsoDeadlineSingle(d, currentYear);
    SingleDayIso(d);
  }

  lemma DeadlineSchedule(item: Item, currentYear: nat)
    requires Truthy(item.deadline)
    ensures ScheduleLines(item, currentYear) == DeadlineLines(item.deadline.value, currentYear)
  {
  }

  /** A deadline with a date and a time is a one-hour event, or `ValueError` when the time
      does not parse, or `OverflowError` in the last hour of 9999-12-31. */
  lemma DatetimeDeadlineOneHour(item: Item, currentYear: nat, date: string, time: string)
    requires Truthy(item.deadline)
    requires ParseDateRange(Strip(item.deadline.value), currentYear).None?
    requires ParseDatetime(Strip(item.deadline.value), currentYear) == Some((date, time))
    ensures StrptimeDateTime(date + "T" + time + ":00").None? ==> ScheduleLines(item, currentYear) == Raised(ValueError)
    ensures StrptimeDateTime(date + "T" + time + ":00").Some? ==>
      var t := StrptimeDateTime(date + "T" + time + ":00").value;
      && (ScheduleLines(item, currentYear).Raised? <==> t.date == Date(MaxYear, 12, 31) && t.hour == 23)
      && (ScheduleLines(item, currentYear).Ok? ==>
            && AddHour(t).Ok? && Seconds(AddHour(t).value) == Seconds(t) + 3600
            && ScheduleLines(item, currentYear).value == TimedLines(StrfCompact(t), StrfCompact(AddHour(t).value)))
  {
    var p := StrptimeDateTime(date + "T" + time + ":00");
    if p.Some? && AddHour(p.value).Ok? {
      AddHourSeconds(p.value);
    }
  }

  /** A deadline such as `2024.12.31` is neither a range nor a date and time, and it splits
      at `-` into one piece only, so unpacking it into year, month and day raises. */
  lemma DottedDeadlineRaises(item: Item, env: Env)
    requires Truthy(item.deadline) && CleanText(item.deadline.value).Some?
    requires |item.deadline.value| < 17
    requires '-' !in item.deadline.value && ':' !in item.deadline.value && '월' !in item.deadline.value
    ensures IcsEvent(item, env) == Raised(ValueError)
  {
    var raw := item.deadline.value;
    DottedLinesRaise(raw, env.currentYear);
  }

  lemma DottedLinesRaise(raw: string, currentYear: nat)
    requires CleanText(raw).Some? && |raw| < 17
    requires '-' !in raw && ':' !in raw && '월' !in raw
    ensures DeadlineLines(raw, currentYear) == Raised(ValueError)
  {
    var s := Strip(raw);
    StripMembers(raw);
    RangeNeedsLength(s, currentYear);
    DatetimeNeedsColon(s, currentYear);
    assert Split(s, '-') == [s];
    assert SingleDayLines(s) == Raised(ValueError);
  }

  lemma DigitsHaveNoDash(s: string)
    requires AllDigits(s)
    ensures '-' !in s
  {
    forall k | 0 <= k < |s| ensures s[k] != '-' {
      assert IsDigit(s[k]);
    }
  }

  /** Removing the dashes from `YYYY-MM-DD` gives `YYYYMMDD`. */
  lemma IsoWithoutDashes(e: Date)
    requires ValidDate(e)
    ensures ReplaceChar(IsoDate(e), '-', "") == CompactInts(e.year, e.month, e.day)
  {
    var y, m, d := PadNat(e.year, 4), PadNat(e.month, 2), PadNat(e.day, 2);
    DigitsHaveNoDash(y);
    DigitsHaveNoDash(m);
    DigitsHaveNoDash(d);
    var dash := ReplaceChar("-", '-', "");
    assert dash == "";
    assert IsoDate(e) == y + "-" + m + "-" + d;
    ReplaceCharAppend(y, "-", '-', "");
    assert ReplaceChar(y + "-", '-', "") == y;
    ReplaceCharAppend(y + "-", m, '-', "");
    assert ReplaceChar(y + "-" + m, '-', "") == y + m;
    ReplaceCharAppend(y + "-" + m, "-", '-', "");
    assert ReplaceChar(y + "-" + m + "-", '-', "") == y + m;
    ReplaceCharAppend(y + "-" + m + "-", d, '-', "");
  }

  /** A range keeps its last day as DTEND, where the single-date branch writes the day after:
      a client reading DTEND as exclusive shows the range one day short. */
  lemma RangeDeadlineLastDay(item: Item, currentYear: nat, a: string, e: Date)
    requires Truthy(item.deadline) && ValidDate(e)
    requires ParseDateRange(Strip(item.deadline.value), currentYear) == Some((a, IsoDate(e)))
    ensures ScheduleLines(item, currentYear).Ok?
    ensures ScheduleLines(item, currentYear).value[1] == "DTEND;VALUE=DATE:" + CompactInts(e.year, e.month, e.day)
  {
    IsoWithoutDashes(e);
  }

  // ---------------------------------------------------------------- the calendar

  /** The deadline as `_clean_date` receives it from `it.get("deadline")`. */
  function DeadlineValue(item: Item): Value {
    match item.deadline
    case None => NoneValue
    case Some(s) => TextValue(s)
  }

  /** With `include_without_deadline` false, an item without a usable deadline is skipped. */
  predicate Included(item: Item, keepAll: bool) {
    keepAll || CleanDate(DeadlineValue(item)).Some?
  }

  /** What the export loop asks of each item: is it looked at, its event text (or the
      exception building it raises), and its UID. */
  datatype Exporter = Exporter(keep: Item -> bool, event: Item -> Result<string>, uid: Item -> string)

  function Exporting(keepAll: bool, env: Env): Exporter {
    Exporter(it => Included(it, keepAll), it => IcsEvent(it, env), it => IcsUid(it, env.digest))
  }

  /** What `items_to_ics` has gathered so far: the UIDs kept, in order, and their events. */
  datatype Gathered = Gathered(uids: seq<string>, events: seq<string>)

  /** One pass of the loop: the event is built before its UID is looked up, so an item
      whose UID was already seen can still raise. */
  function Step(g: Gathered, item: Item, x: Exporter): Result<Gathered> {
    if !x.keep(item) then Ok(g)
    else
      match x.event(item)
      case Raised(e) => Raised(e)
      case Ok(ev) =>
        if ev == "" || x.uid(item) in g.uids then Ok(g)
        else Ok(Gathered(g.uids + [x.uid(item)], g.events + [ev]))
  }

  function Collect(items: seq<Item>, x: Exporter): Result<Gathered>
    decreases |items|
  {
    if items == [] then Ok(Gathered([], []))
    else
      match Collect(items[..|items| - 1], x)
      case Raised(e) => Raised(e)
      case Ok(g) => Step(g, items[|items| - 1], x)
  }

  function Header(name: string, tzid: string): seq<string> {
    ["BEGIN:VCALENDAR",
     "PRODID:-//AutoScheduler//SSU//KR",
     "VERSION:2.0",
     "X-WR-CALNAME:" + IcsEscape(name),
     "X-WR-TIMEZONE:" + tzid]
  }

  /** The document `items_to_ics` returns, or the exception its first failing item raises. */
  function Document(items: seq<Item>, name: string, tzid: string, keepAll: bool, env: Env): Result<string> {
    match Collect(items, Exporting(keepAll, env))
    case Raised(e) => Raised(e)
    case Ok(g) => Ok(CrlfJoin(Header(name, tzid)) + Join(g.events, "") + CrlfJoin(["END:VCALENDAR"]))
  }

  /** `items_to_ics`. */
  method ItemsToIcs(items: seq<Item>, name: string, tzid: string, keepAll: bool, env: Env)
    returns (r: Result<string>)
    ensures r == Document(items, name, tzid, keepAll, env)
  {
    var x := Exporting(keepAll, env);
    var parts: seq<string> := [];
    var seen: set<string> := {};
    ghost var uids: seq<string> := [];
    var i := 0;
    while i < |items|
      invariant 0 <= i <= |items|
      invariant Collect(items[..i], x) == Ok(Gathered(uids, parts))
      invariant forall u :: u in seen <==> u in uids
    {
      var it := items[i];
      assert items[..i + 1][..i] == items[..i];
      if x.keep(it) {
        var ev := x.event(it);
        if ev.Raised? {
          CollectRaisedSticks(items, i + 1, ev.error, x);
          return Raised(ev.error);
        }
        var uid := x.uid(it);
        if ev.value != "" && uid !in seen {
          seen := seen + {uid};
          uids := uids + [uid];
          parts := parts + [ev.value];
        }
      }
      i := i + 1;
    }
    assert items[..i] == items;
    r := Ok(CrlfJoin(Header(name, tzid)) + Join(parts, "") + CrlfJoin(["END:VCALENDAR"]));
  }

  /** Once an item raises, no later item is looked at. */
  lemma {:induction false} CollectRaisedSticks(items: seq<Item>, j: nat, e: PyError, x: Exporter)
    requires j <= |items| && Collect(items[..j], x) == Raised(e)
    ensures Collect(items, x) == Raised(e)
    decreases |items| - j
  {
    if j == |items| {
      assert items[..j] == items;
    } else {
      assert items[..j + 1][..j] == items[..j];
      CollectRaisedSticks(items, j + 1, e, x);
    }
  }

  /** The export fails exactly when some item it looks at fails: there is no per-item recovery. */
  lemma {:induction false} CollectRaises(items: seq<Item>, x: Exporter)
    ensures Collect(items, x).Raised? <==>
      exists j :: 0 <= j < |items| && x.keep(items[j]) && x.event(items[j]).Raised?
    decreases |items|
  {
    if items != [] {
      var n := |items|;
      var init := items[..n - 1];
      CollectRaises(init, x);
      if exists j :: 0 <= j < n - 1 && x.keep(init[j]) && x.event(init[j]).Raised? {
        var j :| 0 <= j < n - 1 && x.keep(init[j]) && x.event(init[j]).Raised?;
        assert items[j] == init[j];
      }
      if exists j :: 0 <= j < n && x.keep(items[j]) && x.event(items[j]).Raised? {
        var j :| 0 <= j < n && x.keep(items[j]) && x.event(items[j]).Raised?;
        if j < n - 1 {
          assert init[j] == items[j];
        }
      }
    }
  }

  /** An item whose event is kept: looked at, with a non-empty event under this UID. */
  predicate Emits(item: Item, x: Exporter, uid: string, ev: string) {
    x.keep(item) && ev != "" && x.uid(item) == uid && x.event(item) == Ok(ev)
  }

  /** Every kept event belongs to an item looked at, under its UID, and no UID is kept twice. */
  lemma {:induction false} CollectSound(items: seq<Item>, x: Exporter)
    requires Collect(items, x).Ok?
    ensures var g := Collect(items, x).value;
      && |g.uids| == |g.events|
      && (forall a, b :: 0 <= a < b < |g.uids| ==> g.uids[a] != g.uids[b])
      && (forall k :: 0 <= k < |g.events| ==>
            exists j :: 0 <= j < |items| && Emits(items[j], x, g.uids[k], g.events[k]))
    decreases |items|
  {
    if items != [] {
      var n := |items|;
      var init := items[..n - 1];
      CollectSound(init, x);
      var h := Collect(init, x).value;
      var g := Collect(items, x).value;
      forall k | 0 <= k < |g.events|
        ensures exists j :: 0 <= j < n && Emits(items[j], x, g.uids[k], g.events[k])
      {
        if k < |h.events| {
          var j :| 0 <= j < n - 1 && Emits(init[j], x, h.uids[k], h.events[k]);
          assert init[j] == items[j];
        } else {
          assert Emits(items[n - 1], x, g.uids[k], g.events[k]);
        }
      }
    }
  }

  /** Every item looked at with a non-empty event has its UID kept, by itself or by an
      earlier item with the same UID. */
  lemma {:induction false} CollectComplete(items: seq<Item>, x: Exporter)
    requires Collect(items, x).Ok?
    ensures forall j :: 0 <= j < |items| && x.keep(items[j]) && x.event(items[j]) != Ok("") ==>
      x.uid(items[j]) in Collect(items, x).value.uids
    decreases |items|
  {
    if items != [] {
      var n := |items|;
      var init := items[..n - 1];
      CollectComplete(init, x);
      var h := Collect(init, x).value;
      var g := Collect(items, x).value;
      assert forall u :: u in h.uids ==> u in g.uids;
      forall j | 0 <= j < n && x.keep(items[j]) && x.event(items[j]) != Ok("")
        ensures x.uid(items[j]) in g.uids
      {
        if j < n - 1 {
          assert init[j] == items[j];
        }
      }
    }
  }

  lemma StartsWithAppend(a: string, b: string, p: string)
    requires StartsWith(a, p)
    ensures StartsWith(a + b, p)
  {
    assert (a + b)[..|p|] == a[..|p|];
  }

  lemma EndsWithAppend(a: string, b: string, p: string)
    requires EndsWith(b, p)
    ensures EndsWith(a + b, p)
  {
    assert (a + b)[|a + b| - |p|..] == b[|b| - |p|..];
  }

  /** The document opens with `BEGIN:VCALENDAR` and closes with `END:VCALENDAR`. */
  lemma DocumentFrame(items: seq<Item>, name: string, tzid: string, keepAll: bool, env: Env)
    requires Document(items, name, tzid, keepAll, env).Ok?
    ensures StartsWith(Document(items, name, tzid, keepAll, env).value, "BEGIN:VCALENDAR\r\n")
    ensures EndsWith(Document(items, name, tzid, keepAll, env).value, "END:VCALENDAR\r\n")
  {
    var g := Collect(items, Exporting(keepAll, env)).value;
    Wrapped(Header(name, tzid), Join(g.events, ""));
  }

  /** Header lines that open the calendar, any body, and the closing line. */
  lemma Wrapped(h: seq<string>, body: string)
    requires |h| >= 2 && h[0] == "BEGIN:VCALENDAR"
    ensures StartsWith(CrlfJoin(h) + body + CrlfJoin(["END:VCALENDAR"]), "BEGIN:VCALENDAR\r\n")
    ensures EndsWith(CrlfJoin(h) + body + CrlfJoin(["END:VCALENDAR"]), "END:VCALENDAR\r\n")
  {
    var head, foot := CrlfJoin(h), CrlfJoin(["END:VCALENDAR"]);
    assert h == [h[0]] + h[1..|h| - 1] + [h[|h| - 1]];
    Framed(h[0], h[1..|h| - 1], h[|h| - 1]);
    StartsWithAppend(head, body, "BEGIN:VCALENDAR\r\n");
    StartsWithAppend(head + body, foot, "BEGIN:VCALENDAR\r\n");
    assert foot == "END:VCALENDAR\r\n";
    EndsWithAppend(head + body, foot, "END:VCALENDAR\r\n");
  }
}
