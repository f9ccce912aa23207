/**
 * The date helpers that `calendar.py` and `calendar_OAuth_option.py` share:
 * cleaning a raw date value, normalising the date spellings found in notices
 * to `YYYY-MM-DD`, finding a date range or a date with a time of day in free
 * text, and reading dates back with `int()` and `strptime`.
 */
module DateText {
  import opened Wrappers
  import opened Text
  import opened Regex
  import opened Civil

  type PyDate = d: Date | ValidDate(d) witness Date(1, 1, 1)
  type PyDateTime = t: DateTime | ValidDateTime(t) witness DateTime(Date(1, 1, 1), 0, 0, 0)

  /** The values an item field can hold, as far as the calendar code tells them apart. */
  datatype Value =
    | NoneValue
    | TextValue(text: string)
    | DateValue(date: PyDate)
    | DateTimeValue(stamp: PyDateTime)
    | OtherValue

  const NullWords: set<string> := {"null", "none", "nan"}

  /**
   * `_clean_date`: `None`, blank text and the words null/none/nan in any case
   * become `None`; other text is stripped; dates become their ISO date.
   * (Only ASCII letters fold case here; no other character lowers to a letter
   * of those three words.)
   */
  function CleanDate(x: Value): (r: Option<string>)
    ensures r.Some? ==> Trimmed(r.value)
    ensures x.TextValue? ==> (r.None? <==> IsBlank(x.text) || Lower(Strip(x.text)) in NullWords)
    ensures x.TextValue? && r.Some? ==> r.value == Strip(x.text)
    ensures x.DateValue? ==> r == Some(IsoDate(x.date))
    ensures x.DateTimeValue? ==> r == Some(IsoDate(x.stamp.date))
    ensures x.NoneValue? || x.OtherValue? ==> r.None?
  {
    match x
    case NoneValue => None
    case TextValue(s) => CleanText(s)
    case DateValue(d) => IsoSome(d)
    case DateTimeValue(t) => IsoSome(t.date)
    case OtherValue => None
  }

  function CleanText(s: string): (r: Option<string>)
    ensures r.Some? ==> Trimmed(r.value) && r.value == Strip(s)
    ensures r.None? <==> Strip(s) == [] || Lower(Strip(s)) in NullWords
  {
    var t := Strip(s);
    if t == [] || Lower(t) in NullWords then None else Some(t)
  }

  /** Non-empty, with no whitespace at either end. */
  predicate Trimmed(s: string) {
    s != [] && !IsSpace(s[0]) && !IsSpace(s[|s| - 1])
  }

  function IsoSome(d: Date): (r: Option<string>)
    requires ValidDate(d)
    ensures r == Some(IsoDate(d))
    ensures Trimmed(r.value)
  {
    var s := IsoDate(d);
    assert IsDigit(s[0]) && IsDigit(s[|s| - 1]);
    Some(s)
  }

  /** Cleaning a cleaned date changes nothing. */
  lemma CleanDateIdempotent(x: Value)
    requires CleanDate(x).Some?
    ensures CleanDate(TextValue(CleanDate(x).value)) == CleanDate(x)
  {
    var v := CleanDate(x).value;
    assert CleanDate(TextValue(v)) == CleanText(v);
    match x
    case TextValue(s) =>
      assert CleanDate(x) == CleanText(s);
      CleanTextIdempotent(s);
    case DateValue(d) =>
      assert v == IsoDate(d);
      CleanIso(d);
    case DateTimeValue(t) =>
      assert v == IsoDate(t.date);
      CleanIso(t.date);
  }

  lemma CleanTextIdempotent(s: string)
    requires CleanText(s).Some?
    ensures CleanText(CleanText(s).value) == CleanText(s)
  {
    var t := Strip(s);
    StripTrimmed(t);
  }

  lemma StripTrimmed(t: string)
    requires Trimmed(t)
    ensures Strip(t) == t
  {
    StripNoSpace(t);
  }

  /** An ISO date passes `_clean_date` unchanged. */
  lemma CleanIso(d: Date)
    requires ValidDate(d)
    ensures CleanText(IsoDate(d)) == Some(IsoDate(d))
  {
    var s := IsoDate(d);
    assert IsDigit(s[0]) && IsDigit(s[|s| - 1]);
    StripNoSpace(s);
    assert !IsSpace(s[0]);
    NullWordsShort();
    assert |Lower(s)| >= 10;
  }

  lemma NullWordsShort()
    ensures forall w | w in NullWords :: |w| <= 4
  {
  }

  // ---------------------------------------------------------------- patterns

  const Y4: Tok := Digits(4, 4)
  const D12: Tok := Digits(1, 2)
  const Ws: Tok := Spaces(false)
  const Ws1: Tok := Spaces(true)
  const DateSep: Tok := AnyOf(".-/")
  const Weekday: Tok := AnyOf("월화수목금토일")

  /** `\d{4}[.\-/]\d{1,2}[.\-/]\d{1,2}` */
  const DateToks: seq<Tok> := [Y4, DateSep, D12, DateSep, D12]
  /** `\d{4}년\s*\d{1,2}월\s*\d{1,2}일` */
  const KoreanToks: seq<Tok> := [Y4, Lit("년"), Ws, D12, Lit("월"), Ws, D12, Lit("일")]
  /** `\d{1,2}월\s*\d{1,2}일` */
  const MonthDayToks: seq<Tok> := [D12, Lit("월"), Ws, D12, Lit("일")]
  /** `\d{1,2}:\d{2}` */
  const ClockToks: seq<Tok> := [D12, Lit(":"), Digits(2, 2)]

  /** A pattern with two groups: `(first)between(second)after`. */
  datatype PairShape = PairShape(first: seq<Tok>, between: seq<Tok>, second: seq<Tok>, after: seq<Tok>)

  function PairPattern(sh: PairShape): (p: Pattern)
    ensures CapCount(p) == 2
  {
    var p := [Part(true, sh.first), Part(false, sh.between), Part(true, sh.second), Part(false, sh.after)];
    assert CapCount(p[3..]) == 0;
    assert CapCount(p[2..]) == 1;
    assert CapCount(p[1..]) == 1;
    p
  }

  /** A pattern with three groups: `(\d{4})sep1(\d{1,2})sep2(\d{1,2})suffix`. */
  datatype YmdShape = YmdShape(sep1: seq<Tok>, sep2: seq<Tok>, suffix: seq<Tok>)

  function YmdPattern(sh: YmdShape): (p: Pattern)
    ensures CapCount(p) == 3
  {
    var p := [Part(true, [Y4]), Part(false, sh.sep1), Part(true, [D12]), Part(false, sh.sep2),
              Part(true, [D12]), Part(false, sh.suffix)];
    assert CapCount(p[5..]) == 0;
    assert CapCount(p[4..]) == 1;
    assert CapCount(p[3..]) == 1;
    assert CapCount(p[2..]) == 2;
    assert CapCount(p[1..]) == 2;
    p
  }

  /** The eight range patterns of `_parse_date_range`, in order. */
  const RangeShapes: seq<PairShape> := [
    PairShape(DateToks, [Ws, AnyOf("~∼"), Ws], DateToks, []),
    PairShape(DateToks, [Ws, AnyOf("-~"), Ws], DateToks, []),
    PairShape(DateToks, [Ws, Lit("부터"), Ws], DateToks, [Ws, Lit("까지")]),
    PairShape(DateToks, [Ws, Lit("-"), Ws], DateToks, []),
    PairShape(KoreanToks, [Ws, AnyOf("-~"), Ws], KoreanToks, []),
    PairShape(KoreanToks, [Lit("부터"), Ws], KoreanToks, [Lit("까지")]),
    PairShape(KoreanToks, [Ws, AnyOf("-~"), Ws], MonthDayToks, []),
    PairShape(MonthDayToks, [Ws, AnyOf("-~"), Ws], MonthDayToks, [])
  ]

  /** The four date-and-time patterns of `_parse_datetime`, in order. */
  const DatetimeShapes: seq<PairShape> := [
    PairShape(DateToks + [Lit(".("), Weekday, Lit(")")], [Ws1], ClockToks, []),
    PairShape(DateToks + [Ws, Lit("("), Weekday, Lit(")")], [Ws1], ClockToks, []),
    PairShape(DateToks, [Ws1], ClockToks, []),
    PairShape(DateToks, [Ws1], ClockToks + [Lit(":"), Digits(2, 2)], [])
  ]

  const DotWeekday: seq<Tok> := [Lit(".("), Weekday, Lit(")")]
  const SpacedWeekday: seq<Tok> := [Ws, Lit("("), Weekday, Lit(")")]
  const TimeTail: seq<Tok> := [Ws1, D12, Lit(":"), D12]

  /** The weekday patterns, then the time patterns, of `_normalize_date_string`. */
  const LeadingShapes: seq<YmdShape> := [
    YmdShape([Lit(".")], [Lit(".")], DotWeekday),
    YmdShape([Lit("-")], [Lit("-")], SpacedWeekday),
    YmdShape([Lit("/")], [Lit("/")], SpacedWeekday),
    YmdShape([Lit(".")], [Lit(".")], DotWeekday + TimeTail),
    YmdShape([Lit("-")], [Lit("-")], SpacedWeekday + TimeTail),
    YmdShape([Lit("/")], [Lit("/")], SpacedWeekday + TimeTail),
    YmdShape([Lit("-")], [Lit("-")], TimeTail),
    YmdShape([Lit(".")], [Lit(".")], TimeTail),
    YmdShape([Lit("/")], [Lit("/")], TimeTail)
  ]

  /** `(\d{4})년\s*(\d{1,2})월\s*(\d{1,2})일` */
  const KoreanShape: YmdShape := YmdShape([Lit("년"), Ws], [Lit("월"), Ws], [Lit("일")])

  /** `(\d{1,2})월\s*(\d{1,2})일` */
  const MonthDayShape: PairShape := PairShape([D12], [Lit("월"), Ws], [D12], [Lit("일")])

  // ---------------------------------------------------------------- normalisation

  /** `f"{y}-{mo.zfill(2)}-{d.zfill(2)}"` */
  function YmdText(y: string, mo: string, d: string): string {
    y + "-" + ZFill(mo, 2) + "-" + ZFill(d, 2)
  }

  /** The groups of the first shape that matches at the start of `s`. */
  function FirstYmd(s: string, shapes: seq<YmdShape>): (r: Option<seq<string>>)
    ensures r.Some? ==> |r.value| == 3
  {
    if shapes == [] then None
    else
      match MatchStart(s, YmdPattern(shapes[0]))
      case Some(g) => Some(g)
      case None => FirstYmd(s, shapes[1..])
  }

  /** `s.split(sep)` when it yields exactly three parts. */
  function ThreeParts(s: string, sep: char): (r: Option<seq<string>>)
    ensures r.Some? ==> |r.value| == 3
  {
    var parts := Split(s, sep);
    if sep in s && |parts| == 3 then Some(parts) else None
  }

  /**
   * `_normalize_date_string`, with the current year (used for `M월 D일`)
   * as a parameter.
   */
  function NormalizeDateString(s: string, currentYear: nat): (r: Option<string>)
    ensures s == [] ==> r.None?
  {
    if s == [] then None
    else
      var t := Strip(s);
      match FirstYmd(t, LeadingShapes)
      case Some(g) => Some(YmdText(g[0], g[1], g[2]))
      case None =>
        if SeparatedYmd(t).Some? then SeparatedYmd(t) else WordedYmd(t, currentYear)
  }

  /** The split on `.`, then on `/`, then on `-`: the first that gives three parts. */
  function SeparatedYmd(t: string): (r: Option<string>)
    ensures r.Some? <==> ThreeParts(t, '.').Some? || ThreeParts(t, '/').Some? || ThreeParts(t, '-').Some?
  {
    match ThreeParts(t, '.')
    case Some(p) => Some(YmdText(p[0], p[1], p[2]))
    case None =>
      match ThreeParts(t, '/')
      case Some(p) => Some(YmdText(p[0], p[1], p[2]))
      case None =>
        match ThreeParts(t, '-')
        case Some(p) => Some(YmdText(p[0], p[1], p[2]))
        case None => None
  }

  /** `YYYY년 M월 D일` at the start, then `M월 D일` in the current year. */
  function WordedYmd(t: string, currentYear: nat): (r: Option<string>)
    ensures r.Some? <==> MatchStart(t, YmdPattern(KoreanShape)).Some? || MatchStart(t, PairPattern(MonthDayShape)).Some?
  {
    match MatchStart(t, YmdPattern(KoreanShape))
    case Some(g) => Some(YmdText(g[0], g[1], g[2]))
    case None =>
      match MatchStart(t, PairPattern(MonthDayShape))
      case Some(g) => Some(YmdText(NatToString(currentYear), g[0], g[1]))
      case None => None
  }

  // ---------------------------------------------------------------- ranges and times

  /** One range pattern: the normalised halves of its leftmost match, when both normalise. */
  function PairHit(text: string, sh: PairShape, currentYear: nat): (r: Option<(string, string)>)
    ensures r.Some? ==> r.value.0 != [] && r.value.1 != []
  {
    match Search(text, PairPattern(sh))
    case Some(g) =>
      var a := NormalizeDateString(g[0], currentYear);
      var b := NormalizeDateString(g[1], currentYear);
      if a.Some? && a.value != [] && b.Some? && b.value != [] then Some((a.value, b.value)) else None
    case None => None
  }

  /** What each range pattern yields, in order. */
  function PairHits(text: string, shapes: seq<PairShape>, currentYear: nat): (r: seq<Option<(string, string)>>)
    ensures |r| == |shapes| && forall k :: 0 <= k < |shapes| ==> r[k] == PairHit(text, shapes[k], currentYear)
  {
    seq(|shapes|, k requires 0 <= k < |shapes| => PairHit(text, shapes[k], currentYear))
  }

  /** `_parse_date_range`: the normalised start and end of the first range pattern found. */
  function ParseDateRange(text: string, currentYear: nat): (r: Option<(string, string)>)
    ensures text == [] ==> r.None?
  {
    if text == [] then None else FirstSome(PairHits(text, RangeShapes, currentYear))
  }

  /** One date-and-time pattern: its normalised date and its time text, when the date normalises. */
  function DatetimeHit(text: string, sh: PairShape, currentYear: nat): (r: Option<(string, string)>)
    ensures r.Some? ==> r.value.0 != []
  {
    match Search(text, PairPattern(sh))
    case Some(g) =>
      var a := NormalizeDateString(g[0], currentYear);
      if a.Some? && a.value != [] then Some((a.value, g[1])) else None
    case None => None
  }

  /** What each date-and-time pattern yields, in order. */
  function DatetimeHits(text: string, shapes: seq<PairShape>, currentYear: nat): (r: seq<Option<(string, string)>>)
    ensures |r| == |shapes| && forall k :: 0 <= k < |shapes| ==> r[k] == DatetimeHit(text, shapes[k], currentYear)
  {
    seq(|shapes|, k requires 0 <= k < |shapes| => DatetimeHit(text, shapes[k], currentYear))
  }

  /** `_parse_datetime`: a normalised date and the `H:MM` text that follows it. */
  function ParseDatetime(text: string, currentYear: nat): (r: Option<(string, string)>)
    ensures text == [] ==> r.None?
  {
    if text == [] then None else FirstSome(DatetimeHits(text, DatetimeShapes, currentYear))
  }

  /** Every date-and-time pattern contains `:`, so text without one has no date and time. */
  lemma DatetimeNeedsColon(text: string, currentYear: nat)
    requires ':' !in text
    ensures ParseDatetime(text, currentYear).None?
  {
    ClockSecond();
    forall k | 0 <= k < |DatetimeShapes| ensures DatetimeHit(text, DatetimeShapes[k], currentYear).None? {
      var p := PairPattern(DatetimeShapes[k]);
      assert p[2].toks == DatetimeShapes[k].second;
      NoMatchWithoutLit(text, p, ":");
    }
    FirstSomeNone(DatetimeHits(text, DatetimeShapes, currentYear));
  }

  /** Each date-and-time pattern's second group begins with a clock. */
  lemma ClockSecond()
    ensures forall k | 0 <= k < |DatetimeShapes| :: |DatetimeShapes[k].second| >= 2 && DatetimeShapes[k].second[1] == Lit(":")
  {
  }

  /**
   * A numeric range needs at least 17 characters and every Korean range contains `월`,
   * so shorter text without `월` has no range.
   */
  lemma RangeNeedsLength(text: string, currentYear: nat)
    requires |text| < 17 && '월' !in text
    ensures ParseDateRange(text, currentYear).None?
  {
    RangeShapeFacts();
    forall k | 0 <= k < |RangeShapes| ensures PairHit(text, RangeShapes[k], currentYear).None? {
      var sh := RangeShapes[k];
      var p := PairPattern(sh);
      assert p[0].toks == sh.first;
      if k < 4 {
        NumericPairMin(sh);
        NoMatchWhenShort(text, p);
      } else {
        NoMatchWithoutLit(text, p, "월");
      }
    }
    FirstSomeNone(PairHits(text, RangeShapes, currentYear));
  }

  /** The four numeric range patterns are long; the others name `월` in their first group. */
  lemma RangeShapeFacts()
    ensures |RangeShapes| == 8
    ensures forall k | 0 <= k < 4 :: var sh := RangeShapes[k];
              sh.first == DateToks && sh.second == DateToks && ToksMin(sh.between) >= 1
    ensures forall k | 4 <= k < 7 :: |RangeShapes[k].first| > 4 && RangeShapes[k].first[4] == Lit("월")
    ensures |RangeShapes[7].first| > 1 && RangeShapes[7].first[1] == Lit("월")
  {
    forall k | 0 <= k < 4 ensures ToksMin(RangeShapes[k].between) >= 1 {
      assert ToksMin(RangeShapes[k].between[1..]) >= 1;
    }
  }

  lemma NumericPairMin(sh: PairShape)
    requires sh.first == DateToks && sh.second == DateToks && ToksMin(sh.between) >= 1
    ensures PatternMin(PairPattern(sh)) >= 17
  {
    var p := PairPattern(sh);
    assert ToksMin(DateToks[4..]) == 1;
    assert ToksMin(DateToks[3..]) == 2;
    assert ToksMin(DateToks[2..]) == 3;
    assert ToksMin(DateToks[1..]) == 4;
    assert ToksMin(DateToks) == 8;
    assert PatternMin(p[2..]) >= 8;
    assert PatternMin(p[1..]) >= 9;
  }

  // ---------------------------------------------------------------- reading dates back

  /** `y, m, d = map(int, s.split("-"))`: three naturals, or `ValueError`. */
  function YmdInts(s: string): (r: Result<(nat, nat, nat)>)
    ensures r.Raised? ==> r.error == ValueError
    ensures r.Ok? ==> |Split(s, '-')| == 3
  {
    var parts := Split(s, '-');
    if |parts| != 3 then Raised(ValueError)
    else
      match (ParseInt(parts[0]), ParseInt(parts[1]), ParseInt(parts[2]))
      case (Some(y), Some(m), Some(d)) =>
        ParseIntNatural(parts[0]);
        ParseIntNatural(parts[1]);
        ParseIntNatural(parts[2]);
        Ok((y, m, d))
      case _ => Raised(ValueError)
  }

  /** `int()` reads an ISO date back into its year, month and day. */
  lemma YmdIntsIso(d: Date)
    requires ValidDate(d)
    ensures YmdInts(IsoDate(d)) == Ok((d.year, d.month, d.day))
  {
    var y, m, dd := PadNat(d.year, 4), PadNat(d.month, 2), PadNat(d.day, 2);
    SplitDashed(y, m, dd);
    ParsePadNat(d.year, 4);
    ParsePadNat(d.month, 2);
    ParsePadNat(d.day, 2);
  }

  /** `_to_dt` on text: the first of `%Y-%m-%d`, `%Y.%m.%d`, `%Y/%m/%d` that parses. */
  function ToDate(x: string): (r: Option<Date>)
    ensures r.Some? ==> ValidDate(r.value)
    ensures x == [] ==> r.None?
  {
    if x == [] then None
    else if StrptimeDate(x, '-').Some? then StrptimeDate(x, '-')
    else if StrptimeDate(x, '.').Some? then StrptimeDate(x, '.')
    else StrptimeDate(x, '/')
  }

  // ---------------------------------------------------------------- what the recognisers accept

  /** `y` + separator + `m` + separator + `d`, each a run of ASCII digits. */
  predicate NumericDate(y: string, c1: char, m: string, c2: char, d: string) {
    && |y| == 4 && 1 <= |m| <= 2 && 1 <= |d| <= 2
    && AllDigits(y) && AllDigits(m) && AllDigits(d)
    && (c1 == '.' || c1 == '-' || c1 == '/') && (c2 == '.' || c2 == '-' || c2 == '/')
  }

  /** `\d{4}[.\-/]\d{1,2}[.\-/]\d{1,2}` matches a numeric date that is not followed by a digit. */
  lemma DateToksAt(s: string, i: nat, y: string, c1: char, m: string, c2: char, d: string)
    requires NumericDate(y, c1, m, c2, d)
    requires i + |y + [c1] + m + [c2] + d| <= |s| && s[i..i + |y + [c1] + m + [c2] + d|] == y + [c1] + m + [c2] + d
    requires var e := i + |y + [c1] + m + [c2] + d|; e == |s| || !IsDigit(s[e])
    ensures ToksEnd(s, i, DateToks) == Some(i + |y + [c1] + m + [c2] + d|)
  {
    var w := y + [c1] + m + [c2] + d;
    var a := i + 4;
    var c := a + 1 + |m|;
    var f := c + 1 + |d|;
    assert f == i + |w|;
    NumericPieces(s, i, w, y, c1, m, c2, d, a, c, f);
    DateToksAtParts(s, i, y, c1, m, c2, d, a, c, f);
  }

  /** Where the year, the separators, the month and the day of a numeric date sit in the text. */
  lemma NumericPieces(s: string, i: nat, w: string, y: string, c1: char, m: string, c2: char, d: string,
                      a: nat, c: nat, f: nat)
    requires |y| == 4 && w == y + [c1] + m + [c2] + d
    requires a == i + 4 && c == a + 1 + |m| && f == c + 1 + |d| && f <= |s| && s[i..f] == w
    ensures s[i..a] == y && s[a] == c1 && s[a + 1..c] == m && s[c] == c2 && s[c + 1..f] == d
  {
    forall k | i <= k < f ensures s[k] == w[k - i] {
      assert s[k] == s[i..f][k - i];
    }
    assert s[i..a] == y;
    assert s[a + 1..c] == m;
    assert s[c + 1..f] == d;
  }

  lemma DateToksAtParts(s: string, i: nat, y: string, c1: char, m: string, c2: char, d: string,
                        a: nat, c: nat, f: nat)
    requires NumericDate(y, c1, m, c2, d)
    requires a == i + 4 && c == a + 1 + |m| && f == c + 1 + |d| && f <= |s|
    requires s[i..a] == y && s[a] == c1 && s[a + 1..c] == m && s[c] == c2 && s[c + 1..f] == d
    requires f == |s| || !IsDigit(s[f])
    ensures ToksEnd(s, i, DateToks) == Some(f)
  {
    DigitsRunTo(s, i, y, 4, 4, a);
    DigitsRunTo(s, a + 1, m, 1, 2, c);
    DigitsRunTo(s, c + 1, d, 1, 2, f);
    DateSepAt(s, a);
    DateSepAt(s, c);
    DateToksTails();
    ToksEndFive(s, DateToks, i, a, a + 1, c, c + 1, f);
  }

  lemma DateSepAt(s: string, a: nat)
    requires a < |s| && (s[a] == '.' || s[a] == '-' || s[a] == '/')
    ensures TokEnd(s, a, DateSep) == Some(a + 1)
  {
  }

  lemma DateToksTails()
    ensures |DateToks| == 5 && DateToks[0] == Y4 && DateToks[1] == DateSep && DateToks[2] == D12
    ensures DateToks[3] == DateSep && DateToks[4] == D12
  {
  }

  // ---------------------------------------------------------------- patterns that cannot match

  /** A literal that every match of the shape must contain. */
  predicate YmdHasLit(sh: YmdShape, text: string) {
    Lit(text) in sh.sep1 || Lit(text) in sh.sep2 || Lit(text) in sh.suffix
  }

  lemma YmdNeedsLit(sh: YmdShape, text: string)
    requires YmdHasLit(sh, text)
    ensures NeedsLit(YmdPattern(sh), text)
  {
    var p := YmdPattern(sh);
    if Lit(text) in sh.sep1 {
      var m :| 0 <= m < |sh.sep1| && sh.sep1[m] == Lit(text);
      assert p[1].toks[m] == Lit(text);
    } else if Lit(text) in sh.sep2 {
      var m :| 0 <= m < |sh.sep2| && sh.sep2[m] == Lit(text);
      assert p[3].toks[m] == Lit(text);
    } else {
      var m :| 0 <= m < |sh.suffix| && sh.suffix[m] == Lit(text);
      assert p[5].toks[m] == Lit(text);
    }
  }

  /** No shape matches when each needs a literal whose first character is missing. */
  lemma {:induction false} FirstYmdBlocked(s: string, shapes: seq<YmdShape>, marks: seq<string>)
    requires |marks| == |shapes|
    requires forall k :: 0 <= k < |shapes| ==> marks[k] != [] && marks[k][0] !in s && YmdHasLit(shapes[k], marks[k])
    ensures FirstYmd(s, shapes).None?
  {
    if shapes != [] {
      YmdNeedsLit(shapes[0], marks[0]);
      NoMatchWithoutLit(s, YmdPattern(shapes[0]), marks[0]);
      FirstYmdBlocked(s, shapes[1..], marks[1..]);
    }
  }

  /** Without `)` or `:` none of the weekday or time patterns of `_normalize_date_string` matches. */
  lemma LeadingBlocked(s: string)
    requires ')' !in s && ':' !in s
    ensures FirstYmd(s, LeadingShapes).None?
  {
    FirstYmdBlocked(s, LeadingShapes, [")", ")", ")", ")", ")", ")", ":", ":", ":"]);
  }

  /** Without `.`, `-` or `/` none of them matches either. */
  lemma LeadingNeedSeparator(s: string)
    requires '.' !in s && '-' !in s && '/' !in s
    ensures FirstYmd(s, LeadingShapes).None?
  {
    FirstYmdBlocked(s, LeadingShapes, [".", "-", "/", ".", "-", "/", "-", ".", "/"]);
  }

  // ---------------------------------------------------------------- normalisation properties

  /** A dotted, slashed or dashed numeric date becomes `Y-MM-DD`, month and day padded to two digits. */
  lemma NormalizeNumeric(y: string, c: char, m: string, d: string, currentYear: nat)
    requires NumericDate(y, c, m, c, d)
    ensures NormalizeDateString(y + [c] + m + [c] + d, currentYear) == Some(YmdText(y, m, d))
  {
    var s := y + [c] + m + [c] + d;
    NumericPlain(y, c, m, d);
    LeadingBlocked(s);
    NumericParts(y, c, m, d);
    NormalizeAfterLeading(s, c, [y, m, d], currentYear);
  }

  lemma NumericPlain(y: string, c: char, m: string, d: string)
    requires NumericDate(y, c, m, c, d)
    ensures var s := y + [c] + m + [c] + d; s != [] && Strip(s) == s && ')' !in s && ':' !in s
  {
    var s := y + [c] + m + [c] + d;
    assert !IsDigit(')') && !IsDigit(':');
    assert IsDigit(s[0]) && IsDigit(s[|s| - 1]);
    StripTrimmed(s);
  }

  lemma NumericParts(y: string, c: char, m: string, d: string)
    requires NumericDate(y, c, m, c, d)
    ensures var s := y + [c] + m + [c] + d;
      && ThreeParts(s, c) == Some([y, m, d])
      && (c != '.' ==> ThreeParts(s, '.').None?)
      && (c == '-' ==> ThreeParts(s, '/').None?)
  {
    assert !IsDigit(c);
    assert c !in y && c !in m && c !in d;
    SplitThree(y, c, m, d);
    if c != '.' {
      NoSeparator(y, m, d, c, '.');
    }
    if c == '-' {
      NoSeparator(y, m, d, c, '/');
    }
  }

  lemma NoSeparator(y: string, m: string, d: string, c: char, other: char)
    requires AllDigits(y) && AllDigits(m) && AllDigits(d) && !IsDigit(other) && c != other
    ensures ThreeParts(y + [c] + m + [c] + d, other).None?
  {
    assert other !in y && other !in m && other !in d;
  }

  /** How `_normalize_date_string` ends when no leading pattern matched and a split gave three parts. */
  lemma NormalizeAfterLeading(s: string, c: char, p: seq<string>, currentYear: nat)
    requires Strip(s) == s && s != [] && FirstYmd(s, LeadingShapes).None?
    requires ThreeParts(s, c) == Some(p)
    requires c == '/' ==> ThreeParts(s, '.').None?
    requires c == '-' ==> ThreeParts(s, '.').None? && ThreeParts(s, '/').None?
    requires c == '.' || c == '/' || c == '-'
    ensures NormalizeDateString(s, currentYear) == Some(YmdText(p[0], p[1], p[2]))
  {
  }

  /** `M월 D일`-style text without a year, a separator or `월` is not a date. */
  lemma NormalizeNeedsMarks(s: string, currentYear: nat)
    requires '.' !in s && '-' !in s && '/' !in s && '월' !in s
    ensures NormalizeDateString(s, currentYear).None?
  {
    if s != [] {
      var t := Strip(s);
      StripMembers(s);
      LeadingNeedSeparator(t);
      YmdNeedsLit(KoreanShape, "월");
      NoMatchWithoutLit(t, YmdPattern(KoreanShape), "월");
      var p := PairPattern(MonthDayShape);
      assert p[1].toks[0] == Lit("월");
      NoMatchWithoutLit(t, p, "월");
    }
  }

  lemma StripMembers(s: string)
    ensures forall c :: c in Strip(s) ==> c in s
  {
    var e := TrimEnd(s);
    var t := TrimStart(e);
    forall c | c in t ensures c in s {
      var k :| 0 <= k < |t| && t[k] == c;
      assert t[k] == e[|e| - |t| + k];
      assert e[|e| - |t| + k] == s[|e| - |t| + k];
    }
  }

  /** `YYYY년 M월 D일`, with any whitespace after 년 and 월, becomes `YYYY-MM-DD`. */
  lemma NormalizeKorean(y: string, sp1: string, m: string, sp2: string, d: string, currentYear: nat)
    requires |y| == 4 && 1 <= |m| <= 2 && 1 <= |d| <= 2
    requires AllDigits(y) && AllDigits(m) && AllDigits(d) && IsBlank(sp1) && IsBlank(sp2)
    ensures NormalizeDateString(y + "년" + sp1 + m + "월" + sp2 + d + "일", currentYear) == Some(YmdText(y, m, d))
  {
    var s := y + "년" + sp1 + m + "월" + sp2 + d + "일";
    KoreanText(s, y, sp1, m, sp2, d);
    KoreanPlain(s, y, sp1, m, sp2, d);
  }

  lemma KoreanText(s: string, y: string, sp1: string, m: string, sp2: string, d: string)
    requires |y| == 4 && 1 <= |m| <= 2 && 1 <= |d| <= 2
    requires AllDigits(y) && AllDigits(m) && AllDigits(d) && IsBlank(sp1) && IsBlank(sp2)
    requires s == y + "년" + sp1 + m + "월" + sp2 + d + "일"
    ensures MatchStart(s, YmdPattern(KoreanShape)) == Some([y, m, d])
  {
    KoreanPieces(s, y, sp1, m, sp2, d);
    KoreanMatch(s, y, sp1, m, sp2, d);
  }

  lemma KoreanPieces(s: string, y: string, sp1: string, m: string, sp2: string, d: string)
    requires |y| == 4 && s == y + "년" + sp1 + m + "월" + sp2 + d + "일"
    ensures |s| == 7 + |sp1| + |m| + |sp2| + |d|
    ensures s[..4] == y && s[4] == '년' && s[5..5 + |sp1|] == sp1
    ensures s[5 + |sp1|..5 + |sp1| + |m|] == m && s[5 + |sp1| + |m|] == '월'
    ensures s[6 + |sp1| + |m|..6 + |sp1| + |m| + |sp2|] == sp2
    ensures s[6 + |sp1| + |m| + |sp2|..6 + |sp1| + |m| + |sp2| + |d|] == d
    ensures s[|s| - 1] == '일'
  {
  }

  /** The Korean pattern matches the whole text, capturing year, month and day. */
  lemma KoreanMatch(s: string, y: string, sp1: string, m: string, sp2: string, d: string)
    requires |y| == 4 && 1 <= |m| <= 2 && 1 <= |d| <= 2
    requires AllDigits(y) && AllDigits(m) && AllDigits(d) && IsBlank(sp1) && IsBlank(sp2)
    requires |s| == 7 + |sp1| + |m| + |sp2| + |d|
    requires s[..4] == y && s[4] == '년' && s[5..5 + |sp1|] == sp1
    requires s[5 + |sp1|..5 + |sp1| + |m|] == m && s[5 + |sp1| + |m|] == '월'
    requires s[6 + |sp1| + |m|..6 + |sp1| + |m| + |sp2|] == sp2
    requires s[6 + |sp1| + |m| + |sp2|..6 + |sp1| + |m| + |sp2| + |d|] == d
    requires s[|s| - 1] == '일'
    ensures MatchStart(s, YmdPattern(KoreanShape)) == Some([y, m, d])
  {
    var b := 5 + |sp1|;
    var c := b + |m|;
    var e := c + 1 + |sp2|;
    var f := e + |d|;
    assert s[b..c] == m && s[e..f] == d && s[c + 1..e] == sp2 && s[f] == '일';
    assert s[b] == s[b..c][0] && s[e] == s[e..f][0];
    KoreanNumbers(s, y, m, d, b, c, e, f);
    KoreanMarks(s, sp1, m, sp2, d, b, c, e, f);
    KoreanAssembled(s, b, c, e, f);
    assert s[0..4] == y;
  }

  /** Token runs for each part of the Korean pattern give its match and its three groups. */
  lemma KoreanAssembled(s: string, b: nat, c: nat, e: nat, f: nat)
    requires 5 <= b <= c && c + 1 <= e <= f && f + 1 == |s|
    requires TokEnd(s, 0, Y4) == Some(4) && TokEnd(s, 4, Lit("년")) == Some(5)
    requires TokEnd(s, 5, Ws) == Some(b) && TokEnd(s, b, D12) == Some(c)
    requires TokEnd(s, c, Lit("월")) == Some(c + 1) && TokEnd(s, c + 1, Ws) == Some(e)
    requires TokEnd(s, e, D12) == Some(f) && TokEnd(s, f, Lit("일")) == Some(f + 1)
    ensures MatchStart(s, YmdPattern(KoreanShape)) == Some([s[0..4], s[b..c], s[e..f]])
  {
    KoreanParts(s, b, c, e, f);
    KoreanSeparators();
    YmdAssemble(s, KoreanShape, b, c, e, f, f + 1);
  }

  lemma KoreanSeparators()
    ensures KoreanShape.sep1 == [Lit("년"), Ws] && KoreanShape.sep2 == [Lit("월"), Ws]
    ensures KoreanShape.suffix == [Lit("일")]
  {
  }

  /** The token runs of the Korean pattern, part by part. */
  lemma KoreanParts(s: string, b: nat, c: nat, e: nat, f: nat)
    requires 5 <= b <= c && c + 1 <= e <= f && f + 1 == |s|
    requires TokEnd(s, 0, Y4) == Some(4) && TokEnd(s, 4, Lit("년")) == Some(5)
    requires TokEnd(s, 5, Ws) == Some(b) && TokEnd(s, b, D12) == Some(c)
    requires TokEnd(s, c, Lit("월")) == Some(c + 1) && TokEnd(s, c + 1, Ws) == Some(e)
    requires TokEnd(s, e, D12) == Some(f) && TokEnd(s, f, Lit("일")) == Some(f + 1)
    ensures ToksEnd(s, 0, [Y4]) == Some(4) && ToksEnd(s, 4, [Lit("년"), Ws]) == Some(b)
    ensures ToksEnd(s, b, [D12]) == Some(c) && ToksEnd(s, c, [Lit("월"), Ws]) == Some(e)
    ensures ToksEnd(s, e, [D12]) == Some(f) && ToksEnd(s, f, [Lit("일")]) == Some(f + 1)
  {
    ToksEndOne(s, 0, Y4, 4);
    ToksEndOne(s, b, D12, c);
    ToksEndOne(s, e, D12, f);
    KoreanMarkRuns(s, b, c, e, f);
  }

  lemma KoreanMarkRuns(s: string, b: nat, c: nat, e: nat, f: nat)
    requires 5 <= b <= c && c + 1 <= e <= f && f + 1 == |s|
    requires TokEnd(s, 4, Lit("년")) == Some(5) && TokEnd(s, 5, Ws) == Some(b)
    requires TokEnd(s, c, Lit("월")) == Some(c + 1) && TokEnd(s, c + 1, Ws) == Some(e)
    requires TokEnd(s, f, Lit("일")) == Some(f + 1)
    ensures ToksEnd(s, 4, [Lit("년"), Ws]) == Some(b) && ToksEnd(s, c, [Lit("월"), Ws]) == Some(e)
    ensures ToksEnd(s, f, [Lit("일")]) == Some(f + 1)
  {
    ToksEndTwo(s, 4, Lit("년"), 5, Ws, b);
    ToksEndTwo(s, c, Lit("월"), c + 1, Ws, e);
    ToksEndOne(s, f, Lit("일"), f + 1);
  }

  /** Chaining the parts of a year-month-day pattern gives the whole match and its three groups. */
  lemma YmdAssemble(s: string, sh: YmdShape, b: nat, c: nat, e: nat, f: nat, g: nat)
    requires 4 <= b <= c <= e <= f <= g <= |s|
    requires ToksEnd(s, 0, [Y4]) == Some(4) && ToksEnd(s, 4, sh.sep1) == Some(b)
    requires ToksEnd(s, b, [D12]) == Some(c) && ToksEnd(s, c, sh.sep2) == Some(e)
    requires ToksEnd(s, e, [D12]) == Some(f) && ToksEnd(s, f, sh.suffix) == Some(g)
    ensures MatchAt(s, 0, YmdPattern(sh)) == Some((g, [s[0..4], s[b..c], s[e..f]]))
  {
    var r2 := YmdTailPattern(sh);
    YmdTail(s, sh, c, e, f, g);
    var r1 := [Part(true, [D12])] + r2;
    var r0 := [Part(false, sh.sep1)] + r1;
    var p := [Part(true, [Y4])] + r0;
    MatchGroup(s, b, [D12], r2, c);
    assert [s[b..c]] + [s[e..f]] == [s[b..c], s[e..f]];
    assert MatchAt(s, b, r1) == Some((g, [s[b..c], s[e..f]]));
    MatchPlain(s, 4, sh.sep1, r1, b);
    assert MatchAt(s, 4, r0) == Some((g, [s[b..c], s[e..f]]));
    MatchGroup(s, 0, [Y4], r0, 4);
    assert [s[0..4]] + [s[b..c], s[e..f]] == [s[0..4], s[b..c], s[e..f]];
    assert MatchAt(s, 0, p) == Some((g, [s[0..4], s[b..c], s[e..f]]));
    YmdParts(sh);
  }

  /** The month separator, the day group and the suffix of a year-month-day pattern. */
  function YmdTailPattern(sh: YmdShape): (r: Pattern)
    ensures |r| == 3 && r[1] == Part(true, [D12])
  {
    [Part(false, sh.sep2)] + ([Part(true, [D12])] + ([Part(false, sh.suffix)] + []))
  }

  lemma YmdTail(s: string, sh: YmdShape, c: nat, e: nat, f: nat, g: nat)
    requires c <= e <= f <= g <= |s|
    requires ToksEnd(s, c, sh.sep2) == Some(e)
    requires ToksEnd(s, e, [D12]) == Some(f) && ToksEnd(s, f, sh.suffix) == Some(g)
    ensures MatchAt(s, c, YmdTailPattern(sh)) == Some((g, [s[e..f]]))
  {
    var r5: Pattern := [];
    var r4 := [Part(false, sh.suffix)] + r5;
    var r3 := [Part(true, [D12])] + r4;
    assert MatchAt(s, g, r5) == Some((g, []));
    MatchPlain(s, f, sh.suffix, r5, g);
    assert MatchAt(s, f, r4) == Some((g, []));
    MatchGroup(s, e, [D12], r4, f);
    assert [s[e..f]] + [] == [s[e..f]];
    assert MatchAt(s, e, r3) == Some((g, [s[e..f]]));
    MatchPlain(s, c, sh.sep2, r3, e);
  }

  lemma YmdParts(sh: YmdShape)
    ensures YmdPattern(sh) == [Part(true, [Y4])] + ([Part(false, sh.sep1)] + ([Part(true, [D12])] + YmdTailPattern(sh)))
  {
  }

  lemma KoreanNumbers(s: string, y: string, m: string, d: string, b: nat, c: nat, e: nat, f: nat)
    requires |y| == 4 && 1 <= |m| <= 2 && 1 <= |d| <= 2
    requires AllDigits(y) && AllDigits(m) && AllDigits(d)
    requires 5 <= b && c == b + |m| && c + 1 <= e && f == e + |d| && f + 1 == |s|
    requires s[..4] == y && s[4] == '년' && s[b..c] == m && s[c] == '월' && s[e..f] == d && s[f] == '일'
    ensures TokEnd(s, 0, Y4) == Some(4) && TokEnd(s, b, D12) == Some(c) && TokEnd(s, e, D12) == Some(f)
  {
    assert s[0..4] == y;
    DigitsRunAt(s, 0, y, 4, 4);
    DigitsRunAt(s, b, m, 1, 2);
    DigitsRunAt(s, e, d, 1, 2);
  }

  lemma KoreanMarks(s: string, sp1: string, m: string, sp2: string, d: string, b: nat, c: nat, e: nat, f: nat)
    requires 1 <= |m| && 1 <= |d| && AllDigits(m) && AllDigits(d) && IsBlank(sp1) && IsBlank(sp2)
    requires b == 5 + |sp1| && c == b + |m| && e == c + 1 + |sp2| && f == e + |d| && f + 1 == |s|
    requires s[4] == '년' && s[5..b] == sp1 && s[b] == m[0] && s[c] == '월'
    requires s[c + 1..e] == sp2 && s[e] == d[0] && s[f] == '일'
    ensures TokEnd(s, 4, Lit("년")) == Some(5) && TokEnd(s, 5, Ws) == Some(b)
    ensures TokEnd(s, c, Lit("월")) == Some(c + 1) && TokEnd(s, c + 1, Ws) == Some(e)
    ensures TokEnd(s, f, Lit("일")) == Some(f + 1)
  {
    assert IsDigit(m[0]) && IsDigit(d[0]);
    SpacesRunAt(s, 5, sp1, false);
    SpacesRunAt(s, c + 1, sp2, false);
    assert s[4..5] == "년";
    assert s[c..c + 1] == "월";
    assert s[f..f + 1] == "일";
  }

  /** Before the Korean pattern is tried, every earlier step of `_normalize_date_string` fails. */
  lemma KoreanPlain(s: string, y: string, sp1: string, m: string, sp2: string, d: string)
    requires AllDigits(y) && AllDigits(m) && AllDigits(d) && IsBlank(sp1) && IsBlank(sp2)
    requires |y| == 4 && s == y + "년" + sp1 + m + "월" + sp2 + d + "일"
    ensures Strip(s) == s
    ensures FirstYmd(s, LeadingShapes).None?
    ensures ThreeParts(s, '.').None? && ThreeParts(s, '/').None? && ThreeParts(s, '-').None?
  {
    KoreanLacks(s, y, sp1, m, sp2, d, ')');
    KoreanLacks(s, y, sp1, m, sp2, d, ':');
    KoreanLacks(s, y, sp1, m, sp2, d, '.');
    KoreanLacks(s, y, sp1, m, sp2, d, '/');
    KoreanLacks(s, y, sp1, m, sp2, d, '-');
    assert IsDigit(s[0]) && s[|s| - 1] == '일';
    StripTrimmed(s);
    LeadingBlocked(s);
  }

  /** Punctuation that is neither a digit, a space nor Hangul does not occur in the Korean form. */
  lemma KoreanLacks(s: string, y: string, sp1: string, m: string, sp2: string, d: string, x: char)
    requires AllDigits(y) && AllDigits(m) && AllDigits(d) && IsBlank(sp1) && IsBlank(sp2)
    requires s == y + "년" + sp1 + m + "월" + sp2 + d + "일"
    requires !IsDigit(x) && !IsSpace(x) && x != '년' && x != '월' && x != '일'
    ensures x !in s
  {
    assert x !in y && x !in sp1 && x !in m && x !in sp2 && x !in d;
  }
}
