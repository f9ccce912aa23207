/**
 * Proleptic Gregorian dates and times as Python's `datetime` module keeps them:
 * the constructors' range checks, `+ timedelta(days=1)` and `+ timedelta(hours=1)`,
 * `isoformat`, `strftime` and `strptime` for the formats the calendar code uses.
 */
module Civil {
  import opened Wrappers
  import opened Text

  datatype Date = Date(year: int, month: int, day: int)
  datatype DateTime = DateTime(date: Date, hour: int, minute: int, second: int)

  /** The exceptions the date arithmetic can raise. */
  datatype PyError = ValueError | OverflowError

  /** A value, or the exception that Python raises instead. */
  datatype Result<T> = Ok(value: T) | Raised(error: PyError)

  const MinYear: int := 1
  const MaxYear: int := 9999

  predicate IsLeap(y: int) {
    y % 4 == 0 && (y % 100 != 0 || y % 400 == 0)
  }

  function DaysInMonth(y: int, m: int): (n: int)
    requires 1 <= m <= 12
    ensures 28 <= n <= 31
    ensures m == 2 ==> (n == 29 <==> IsLeap(y))
  {
    if m == 2 then (if IsLeap(y) then 29 else 28)
    else if m == 4 || m == 6 || m == 9 || m == 11 then 30
    else 31
  }

  /** What `date(y, m, d)` accepts. */
  predicate ValidDate(d: Date) {
    && MinYear <= d.year <= MaxYear
    && 1 <= d.month <= 12
    && 1 <= d.day <= DaysInMonth(d.year, d.month)
  }

  /** What `datetime(y, m, d, H, M, S)` accepts. */
  predicate ValidDateTime(t: DateTime) {
    && ValidDate(t.date)
    && 0 <= t.hour < 24 && 0 <= t.minute < 60 && 0 <= t.second < 60
  }

  /** `date(y, m, d)`: the date, or `ValueError` outside the calendar. */
  function MakeDate(y: int, m: int, d: int): (r: Result<Date>)
    ensures r.Ok? <==> ValidDate(Date(y, m, d))
    ensures r.Ok? ==> r.value == Date(y, m, d)
    ensures r.Raised? ==> r.error == ValueError
  {
    if ValidDate(Date(y, m, d)) then Ok(Date(y, m, d)) else Raised(ValueError)
  }

  // ---------------------------------------------------------------- arithmetic

  /** `d + timedelta(days=1)`; `OverflowError` past 9999-12-31. */
  function NextDay(d: Date): (r: Result<Date>)
    requires ValidDate(d)
    ensures r.Ok? ==> ValidDate(r.value)
    ensures r.Raised? <==> d == Date(MaxYear, 12, 31)
    ensures r.Raised? ==> r.error == OverflowError
  {
    if d.day < DaysInMonth(d.year, d.month) then Ok(Date(d.year, d.month, d.day + 1))
    else if d.month < 12 then Ok(Date(d.year, d.month + 1, 1))
    else if d.year < MaxYear then Ok(Date(d.year + 1, 1, 1))
    else Raised(OverflowError)
  }

  /** `t + timedelta(hours=1)`. */
  function AddHour(t: DateTime): (r: Result<DateTime>)
    requires ValidDateTime(t)
    ensures r.Ok? ==> ValidDateTime(r.value)
    ensures r.Ok? ==> r.value.minute == t.minute && r.value.second == t.second
    ensures r.Raised? <==> t.date == Date(MaxYear, 12, 31) && t.hour == 23
  {
    if t.hour < 23 then Ok(t.(hour := t.hour + 1))
    else
      match NextDay(t.date)
      case Ok(d) => Ok(DateTime(d, 0, t.minute, t.second))
      case Raised(e) => Raised(e)
  }

  // ---------------------------------------------------------------- day numbers

  function DaysBeforeYear(y: int): int
    requires y >= 1
  {
    var x := y - 1;
    365 * x + x / 4 - x / 100 + x / 400
  }

  function DaysBeforeMonth(y: int, m: int): int
    requires 1 <= m <= 12
  {
    if m == 1 then 0 else DaysBeforeMonth(y, m - 1) + DaysInMonth(y, m - 1)
  }

  /** `date.toordinal()`: 1 for 0001-01-01, counting every day since. */
  function DayNumber(d: Date): int
    requires ValidDate(d)
  {
    DaysBeforeYear(d.year) + DaysBeforeMonth(d.year, d.month) + d.day
  }

  /** The seconds since the start of day 0 (the ordinal scaled to seconds). */
  function Seconds(t: DateTime): int
    requires ValidDateTime(t)
  {
    DayNumber(t.date) * 86400 + t.hour * 3600 + t.minute * 60 + t.second
  }

  lemma YearLength(y: int)
    requires y >= 1
    ensures DaysBeforeYear(y + 1) == DaysBeforeYear(y) + DaysBeforeMonth(y, 12) + DaysInMonth(y, 12)
  {
    MonthTable(y);
    var x := y - 1;
    assert (x + 1) / 4 == x / 4 + (if y % 4 == 0 then 1 else 0);
    assert (x + 1) / 100 == x / 100 + (if y % 100 == 0 then 1 else 0);
    assert (x + 1) / 400 == x / 400 + (if y % 400 == 0 then 1 else 0);
  }

  lemma MonthTable(y: int)
    ensures DaysBeforeMonth(y, 12) + DaysInMonth(y, 12) == 365 + (if IsLeap(y) then 1 else 0)
  {
    assert DaysBeforeMonth(y, 2) == 31;
    assert DaysBeforeMonth(y, 3) == 31 + DaysInMonth(y, 2);
    assert DaysBeforeMonth(y, 4) == DaysBeforeMonth(y, 3) + 31;
    assert DaysBeforeMonth(y, 5) == DaysBeforeMonth(y, 4) + 30;
    assert DaysBeforeMonth(y, 6) == DaysBeforeMonth(y, 5) + 31;
    assert DaysBeforeMonth(y, 7) == DaysBeforeMonth(y, 6) + 30;
    assert DaysBeforeMonth(y, 8) == DaysBeforeMonth(y, 7) + 31;
    assert DaysBeforeMonth(y, 9) == DaysBeforeMonth(y, 8) + 31;
    assert DaysBeforeMonth(y, 10) == DaysBeforeMonth(y, 9) + 30;
    assert DaysBeforeMonth(y, 11) == DaysBeforeMonth(y, 10) + 31;
    assert DaysBeforeMonth(y, 12) == DaysBeforeMonth(y, 11) + 30;
  }

  /** `NextDay` moves exactly one day forward in the ordinal numbering. */
  lemma NextDayNumber(d: Date)
    requires ValidDate(d) && NextDay(d).Ok?
    ensures DayNumber(NextDay(d).value) == DayNumber(d) + 1
  {
    if d.day == DaysInMonth(d.year, d.month) && d.month == 12 {
      YearLength(d.year);
    }
  }

  /** `AddHour` moves exactly 3600 seconds forward. */
  lemma AddHourSeconds(t: DateTime)
    requires ValidDateTime(t) && AddHour(t).Ok?
    ensures Seconds(AddHour(t).value) == Seconds(t) + 3600
  {
    if t.hour == 23 {
      NextDayNumber(t.date);
    }
  }

  // ---------------------------------------------------------------- formatting

  /** `f"{y:04d}{m:02d}{d:02d}"` on the integers read from a date string. */
  function CompactInts(y: nat, m: nat, d: nat): string {
    PadNat(y, 4) + PadNat(m, 2) + PadNat(d, 2)
  }

  /** `f"{y:04d}-{m:02d}-{d:02d}"`, which is also `date.isoformat()`. */
  function DashedInts(y: nat, m: nat, d: nat): string {
    PadNat(y, 4) + "-" + PadNat(m, 2) + "-" + PadNat(d, 2)
  }

  function IsoDate(d: Date): string
    requires ValidDate(d)
  {
    DashedInts(d.year, d.month, d.day)
  }

  /** `%Y` as the C library writes it on Linux: the year without padding. */
  function StrfYear(y: int): string
    requires y >= 1
  {
    NatToString(y)
  }

  /** `strftime("%Y%m%d")`. */
  function StrfDate(d: Date): string
    requires ValidDate(d)
  {
    StrfYear(d.year) + PadNat(d.month, 2) + PadNat(d.day, 2)
  }

  function StrfClock(t: DateTime): string
    requires ValidDateTime(t)
  {
    PadNat(t.hour, 2) + PadNat(t.minute, 2) + PadNat(t.second, 2)
  }

  /** `strftime("%Y%m%dT%H%M%S")`. */
  function StrfCompact(t: DateTime): string
    requires ValidDateTime(t)
  {
    StrfDate(t.date) + "T" + StrfClock(t)
  }

  /** `strftime("%Y-%m-%dT%H:%M:%S")`. */
  function StrfIso(t: DateTime): string
    requires ValidDateTime(t)
  {
    StrfYear(t.date.year) + "-" + PadNat(t.date.month, 2) + "-" + PadNat(t.date.day, 2)
      + "T" + PadNat(t.hour, 2) + ":" + PadNat(t.minute, 2) + ":" + PadNat(t.second, 2)
  }

  /** An ISO date is ten characters, digits and two dashes. */
  lemma IsoDateShape(d: Date)
    requires ValidDate(d)
    ensures |IsoDate(d)| == 10
    ensures forall c :: c in IsoDate(d) ==> IsDigit(c) || c == '-'
  {
    NatToStringLength(d.year, 4);
    NatToStringLength(d.month, 2);
    NatToStringLength(d.day, 2);
    var y, m, dd := PadNat(d.year, 4), PadNat(d.month, 2), PadNat(d.day, 2);
    assert IsoDate(d) == y + "-" + m + "-" + dd;
    forall c | c in IsoDate(d) ensures IsDigit(c) || c == '-' {
      assert c in y || c in m || c in dd || c == '-';
    }
  }

  /** A four-digit year is written the same by `%Y` and by `{:04d}`. */
  lemma StrfDateCompact(d: Date)
    requires ValidDate(d) && d.year >= 1000
    ensures StrfDate(d) == CompactInts(d.year, d.month, d.day)
  {
    NatToStringLength(d.year, 4);
    FourDigits(d.year);
  }

  lemma FourDigits(y: nat)
    requires 1000 <= y <= 9999
    ensures |NatToString(y)| == 4
  {
    var s := NatToString(y);
    NatToStringLength(y, 4);
    DigitsBound(s);
    Pow10Small(|s|);
  }

  lemma Pow10Small(k: nat)
    ensures k <= 3 ==> Pow10(k) <= 1000
  {
  }

  lemma {:induction false} DigitsBound(s: string)
    requires AllDigits(s)
    ensures DigitsValue(s) < Pow10(|s|)
  {
    if s != [] {
      DigitsBound(s[..|s| - 1]);
    }
  }

  // ---------------------------------------------------------------- strptime

  /** `%Y`: exactly four digits. */
  predicate YearField(f: string) {
    |f| == 4 && AllDigits(f)
  }

  /** `%m`: 1[0-2] | 0[1-9] | [1-9]. */
  predicate MonthField(f: string) {
    || (|f| == 1 && '1' <= f[0] <= '9')
    || (|f| == 2 && f[0] == '0' && '1' <= f[1] <= '9')
    || (|f| == 2 && f[0] == '1' && '0' <= f[1] <= '2')
  }

  /** `%d`: 3[01] | [12]\d | 0[1-9] | [1-9] | a space then [1-9]. */
  predicate DayField(f: string) {
    || (|f| == 1 && '1' <= f[0] <= '9')
    || (|f| == 2 && f[0] == ' ' && '1' <= f[1] <= '9')
    || (|f| == 2 && f[0] == '0' && '1' <= f[1] <= '9')
    || (|f| == 2 && (f[0] == '1' || f[0] == '2') && IsDigit(f[1]))
    || (|f| == 2 && f[0] == '3' && (f[1] == '0' || f[1] == '1'))
  }

  /** `%H`: 2[0-3] | [01]\d | \d. */
  predicate HourField(f: string) {
    || (|f| == 1 && IsDigit(f[0]))
    || (|f| == 2 && (f[0] == '0' || f[0] == '1') && IsDigit(f[1]))
    || (|f| == 2 && f[0] == '2' && '0' <= f[1] <= '3')
  }

  /** `%M`: [0-5]\d | \d. */
  predicate MinuteField(f: string) {
    || (|f| == 1 && IsDigit(f[0]))
    || (|f| == 2 && '0' <= f[0] <= '5' && IsDigit(f[1]))
  }

  /** `%S`: 6[01] | [0-5]\d | \d. */
  predicate SecondField(f: string) {
    || MinuteField(f)
    || (|f| == 2 && f[0] == '6' && (f[1] == '0' || f[1] == '1'))
  }

  lemma FieldDigits(f: string)
    requires AllDigits(f) && 1 <= |f| <= 2
    ensures |f| == 1 ==> DigitsValue(f) == DigitValue(f[0])
    ensures |f| == 2 ==> DigitsValue(f) == DigitValue(f[0]) * 10 + DigitValue(f[1])
  {
    if |f| == 2 {
      assert f[..1] == [f[0]];
    }
    assert DigitsValue(f[..0]) == 0;
  }

  /** Each clock field holds a number in its range. */
  lemma ClockFieldBounds(h: string, m: string, s: string)
    requires HourField(h) && MinuteField(m) && SecondField(s)
    ensures AllDigits(h) && AllDigits(m) && AllDigits(s)
    ensures DigitsValue(h) < 24 && DigitsValue(m) < 60 && DigitsValue(s) < 62
  {
    FieldDigits(h);
    FieldDigits(m);
    FieldDigits(s);
  }

  /** The number a field holds, past the space `%d` allows in front. */
  function FieldValue(f: string): nat
    requires f != [] && (f[0] == ' ' || IsDigit(f[0])) && AllDigits(f[1..])
  {
    if f[0] == ' ' then DigitsValue(f[1..]) else DigitsValue(f)
  }

  /**
   * `datetime.strptime(s, "%Y<sep>%m<sep>%d")` for a separator that no field
   * can contain: the date, or `None` where Python raises `ValueError`.
   */
  function StrptimeDate(s: string, sep: char): (r: Option<Date>)
    requires sep == '-' || sep == '.' || sep == '/'
    ensures r.Some? ==> ValidDate(r.value)
  {
    var parts := Split(s, sep);
    if |parts| == 3 && YearField(parts[0]) && MonthField(parts[1]) && DayField(parts[2]) then
      var d := Date(DigitsValue(parts[0]), FieldValue(parts[1]), FieldValue(parts[2]));
      if ValidDate(d) then Some(d) else None
    else None
  }

  /**
   * `datetime.strptime(s, "%Y-%m-%dT%H:%M:%S")`. Leap seconds that the `%S`
   * field admits are then refused by the `datetime` constructor.
   */
  function StrptimeDateTime(s: string): (r: Option<DateTime>)
    ensures r.Some? ==> ValidDateTime(r.value)
  {
    var halves := Split(s, 'T');
    if |halves| != 2 then None
    else
      match StrptimeDate(halves[0], '-')
      case None => None
      case Some(d) =>
        var clock := Split(halves[1], ':');
        if |clock| == 3 && HourField(clock[0]) && MinuteField(clock[1]) && SecondField(clock[2]) then
          ClockFieldBounds(clock[0], clock[1], clock[2]);
          var t := DateTime(d, DigitsValue(clock[0]), DigitsValue(clock[1]), DigitsValue(clock[2]));
          if t.second < 60 then Some(t) else None
        else None
  }

  /** `strptime` reads back what `isoformat` wrote. */
  lemma StrptimeIsoDate(d: Date)
    requires ValidDate(d)
    ensures StrptimeDate(IsoDate(d), '-') == Some(d)
  {
    var y := PadNat(d.year, 4);
    var m := PadNat(d.month, 2);
    var dd := PadNat(d.day, 2);
    SplitDashed(y, m, dd);
    assert Split(IsoDate(d), '-') == [y, m, dd];
    NatToStringLength(d.year, 4);
    NatToStringLength(d.month, 2);
    NatToStringLength(d.day, 2);
    TwoDigitField(d.month, m);
    TwoDigitField(d.day, dd);
  }

  lemma SplitDashed(y: string, m: string, d: string)
    requires AllDigits(y) && AllDigits(m) && AllDigits(d)
    ensures Split(y + "-" + m + "-" + d, '-') == [y, m, d]
  {
    assert '-' !in y && '-' !in m && '-' !in d by {
      assert !IsDigit('-');
    }
    SplitThree(y, '-', m, d);
  }

  lemma TwoDigitField(n: nat, f: string)
    requires 1 <= n <= 31 && f == PadNat(n, 2) && |f| == 2
    ensures f[0] != ' ' && FieldValue(f) == n
    ensures n <= 12 ==> MonthField(f)
    ensures DayField(f)
  {
    FieldDigits(f);
  }
}
