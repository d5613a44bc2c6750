/** `parse_valid_time_date` and `format_valid_time_endpoint`: dates at the precision they were given. */
module ValidDates {
  import opened Ledger
  import opened Validity
  import opened Calendar
  import opened DigitText

  // ---- Parsing ------------------------------------------------------------------------------

  function MidnightOf(d: Date): Moment {
    Moment(d, 0, 0, 0, 0)
  }

  /** chrono's instant parser needs a time of day: it takes nothing as short as a date. */
  ghost predicate NeedsTime(instant: string -> Option<Moment>) {
    forall s :: |s| <= 10 ==> instant(s).None?
  }

  /** `NaiveDate::parse_from_str` with "%Y-%m-%d", on digits. */
  function ParseDay(s: string): (r: Option<Date>)
    ensures r.Some? ==> ValidDate(r.value)
  {
    if |s| != 10 || s[4] != '-' || s[7] != '-' || !AllDigits(s[..4]) || !AllDigits(s[5..7]) || !AllDigits(s[8..]) then None
    else
      var d := Date(Value(s[..4]), Value(s[5..7]), Value(s[8..]));
      if ValidDate(d) then Some(d) else None
  }

  /** The four forms, in the order they are tried. */
  function ParseValidTimeDate(s: string, instant: string -> Option<Moment>): Option<(Moment, DateGranularity)> {
    if instant(s).Some? then Some((instant(s).value, FullInstant))
    else if |s| == 10 && s[4] == '-' && s[7] == '-' && ParseDay(s).Some? then Some((MidnightOf(ParseDay(s).value), Day))
    else if |s| == 7 && s[4] == '-' && ParseDay(s + "-01").Some? then Some((MidnightOf(ParseDay(s + "-01").value), Month))
    else if |s| == 4 && AllDigits(s) then Some((MidnightOf(Date(Value(s), 1, 1)), Year))
    else None
  }

  // ---- Printing -----------------------------------------------------------------------------

  function YearForm(d: Date): string
    requires FourDigitYear(d)
  {
    Digits(d.year, 4)
  }

  function MonthForm(d: Date): string
    requires FourDigitYear(d)
  {
    YearForm(d) + (['-'] + Digits(d.month, 2))
  }

  function DayForm(d: Date): string
    requires FourDigitYear(d)
  {
    YearForm(d) + (['-'] + (Digits(d.month, 2) + (['-'] + Digits(d.day, 2))))
  }

  function FormatValidTimeEndpoint(date: Option<Moment>, g: Option<DateGranularity>): Option<string>
    requires date.Some? ==> FourDigitYear(date.value.date)
  {
    match date
    case None => None
    case Some(m) =>
      match g
      case Some(Year) => Some(YearForm(m.date))
      case Some(Month) => Some(MonthForm(m.date))
      case _ => Some(DayForm(m.date))
  }

  /** The precision that is shown: anything but a year or a month is shown as a day. */
  function Shown(g: Option<DateGranularity>): DateGranularity {
    if g == Some(Year) then Year else if g == Some(Month) then Month else Day
  }

  /** The start of the period that holds the moment. */
  function StartOf(m: Moment, g: DateGranularity): Moment {
    MidnightOf(match g
               case Year => Date(m.date.year, 1, 1)
               case Month => Date(m.date.year, m.date.month, 1)
               case _ => m.date)
  }

  predicate Printable(m: Moment) {
    ValidMoment(m) && FourDigitYear(m.date)
  }

  /** `StartOf` is the latest start of a period that is not after the moment. */
  lemma StartIsLatest(m: Moment, other: Moment, g: DateGranularity)
    requires Printable(m) && Printable(other) && StartOf(other, g) == other && InstantOf(other) <= InstantOf(m)
    ensures ValidMoment(StartOf(m, g)) && InstantOf(other) <= InstantOf(StartOf(m, g)) <= InstantOf(m)
  {
    var start := StartOf(m, g);
    InstantsOrderMoments(m, other);
    InstantsOrderMoments(m, start);
    InstantsOrderMoments(start, other);
  }

  // ---- Round trips --------------------------------------------------------------------------

  lemma Powers()
    ensures Pow10(2) == 100 && Pow10(4) == 10_000
  {
  }

  lemma DayFormParts(d: Date)
    requires FourDigitYear(d)
    ensures var s := DayForm(d);
            && |s| == 10 && s[4] == '-' && s[7] == '-'
            && s[..4] == Digits(d.year, 4) && s[5..7] == Digits(d.month, 2) && s[8..] == Digits(d.day, 2)
  {
  }

  lemma ParseDayOfForm(d: Date)
    requires ValidDate(d) && FourDigitYear(d)
    ensures ParseDay(DayForm(d)) == Some(d)
  {
    Powers();
    DayFormParts(d);
    ValueOfDigits(d.year, 4);
    ValueOfDigits(d.month, 2);
    ValueOfDigits(d.day, 2);
  }

  lemma FirstOfMonthForm(d: Date)
    requires FourDigitYear(d)
    ensures MonthForm(d) + "-01" == DayForm(Date(d.year, d.month, 1))
  {
    assert Digits(1, 2) == "01" by {
      assert Digits(0, 1) == Digits(0, 0) + [DigitChar(0)];
    }
  }

  lemma ParseOfForm(m: Moment, g: Option<DateGranularity>, instant: string -> Option<Moment>)
    requires Printable(m) && NeedsTime(instant)
    ensures ParseValidTimeDate(FormatValidTimeEndpoint(Some(m), g).value, instant) == Some((StartOf(m, Shown(g)), Shown(g)))
  {
    var d := m.date;
    match Shown(g) {
      case Year =>
        Powers();
        ValueOfDigits(d.year, 4);
      case Month =>
        FirstOfMonthForm(d);
        ParseDayOfForm(Date(d.year, d.month, 1));
      case _ =>
        DayFormParts(d);
        ParseDayOfForm(d);
    }
  }

  /** Printing at a precision and parsing back gives the start of the period and that precision. An
      instant, or a date of unknown precision, comes back as its day. */
  lemma PrintThenParse(m: Moment, g: Option<DateGranularity>, instant: string -> Option<Moment>)
    requires Printable(m) && NeedsTime(instant)
    ensures FormatValidTimeEndpoint(Some(m), g).Some? && FormatValidTimeEndpoint(None, g).None?
    ensures ParseValidTimeDate(FormatValidTimeEndpoint(Some(m), g).value, instant) == Some((StartOf(m, Shown(g)), Shown(g)))
    ensures ParseValidTimeDate(FormatValidTimeEndpoint(Some(m), g).value, instant) == Some((m, Shown(g))) <==> m == StartOf(m, Shown(g))
  {
    ParseOfForm(m, g, instant);
  }

  lemma FormOfParsedDay(s: string)
    requires ParseDay(s).Some?
    ensures FourDigitYear(ParseDay(s).value) && DayForm(ParseDay(s).value) == s
  {
    Powers();
    DigitsOfValue(s[..4]);
    DigitsOfValue(s[5..7]);
    DigitsOfValue(s[8..]);
    assert s == s[..4] + ([s[4]] + (s[5..7] + ([s[7]] + s[8..])));
  }

  lemma FormOfParsedMonth(s: string)
    requires |s| == 7 && ParseDay(s + "-01").Some?
    ensures FourDigitYear(ParseDay(s + "-01").value) && MonthForm(ParseDay(s + "-01").value) == s
  {
    var d := ParseDay(s + "-01").value;
    FormOfParsedDay(s + "-01");
    assert DayForm(d)[..7] == MonthForm(d);
    assert (s + "-01")[..7] == s;
  }

  /** Parsing a date and printing it at the precision found returns the text unchanged. */
  lemma ParseThenPrint(s: string, instant: string -> Option<Moment>)
    requires instant(s).None? && ParseValidTimeDate(s, instant).Some?
    ensures var (m, g) := ParseValidTimeDate(s, instant).value;
            && g != FullInstant && Printable(m) && m == StartOf(m, g)
            && FormatValidTimeEndpoint(Some(m), Some(g)) == Some(s)
  {
    var (m, g) := ParseValidTimeDate(s, instant).value;
    match g {
      case Year =>
        Powers();
        DigitsOfValue(s);
      case Month =>
        FormOfParsedMonth(s);
        MonthStarts(s);
      case _ =>
        FormOfParsedDay(s);
    }
  }

  lemma MonthStarts(s: string)
    requires |s| == 7 && ParseDay(s + "-01").Some?
    ensures ParseDay(s + "-01").value.day == 1
  {
    FormOfParsedDay(s + "-01");
    var d := ParseDay(s + "-01").value;
    assert (s + "-01")[8..] == "01";
    assert Value("01") == 10 * Value("0") + 1 by {
      assert "01"[..1] == "0";
    }
    assert Value("0") == 0 by {
      assert "0"[..0] == "";
    }
  }

  /** A text is accepted exactly when it is an instant, which is kept as it is, or the printed form of a
      date. */
  lemma AcceptedExactly(s: string, instant: string -> Option<Moment>)
    requires NeedsTime(instant)
    ensures ParseValidTimeDate(s, instant).Some? <==>
            instant(s).Some? || exists m, g :: Printable(m) && FormatValidTimeEndpoint(Some(m), g) == Some(s)
    ensures instant(s).Some? ==> ParseValidTimeDate(s, instant) == Some((instant(s).value, FullInstant))
  {
    if ParseValidTimeDate(s, instant).Some? && instant(s).None? {
      ParseThenPrint(s, instant);
    }
    forall m, g | Printable(m) && FormatValidTimeEndpoint(Some(m), g) == Some(s)
      ensures ParseValidTimeDate(s, instant).Some?
    {
      PrintThenParse(m, g, instant);
    }
  }

  // ---- Which texts are dates ----------------------------------------------------------------

  lemma DayText(s: string)
    requires |s| == 10
    ensures ParseDay(s)
            == if && DigitsAt(s, 0, 4) && s[4] == '-' && DigitsAt(s, 5, 2) && s[7] == '-' && DigitsAt(s, 8, 2)
                  && 1 <= NumberAt(s, 5, 2) <= 12 && 1 <= NumberAt(s, 8, 2) <= LastDay(NumberAt(s, 0, 4), NumberAt(s, 5, 2))
               then Some(Date(NumberAt(s, 0, 4), NumberAt(s, 5, 2), NumberAt(s, 8, 2)))
               else None
  {
    assert s[0..4] == s[..4] && s[5..7] == s[5..5 + 2] && s[8..] == s[8..8 + 2];
    DigitsThere(s, 0, 4);
    DigitsThere(s, 5, 2);
    DigitsThere(s, 8, 2);
    if DigitsAt(s, 0, 4) && DigitsAt(s, 5, 2) && DigitsAt(s, 8, 2) {
      NumberIsValue(s, 0, 4);
      NumberIsValue(s, 5, 2);
      NumberIsValue(s, 8, 2);
      ValidExactly(Date(Value(s[..4]), Value(s[5..7]), Value(s[8..])));
    }
  }

  /** What is read from a text that is no instant: "YYYY", "YYYY-MM" with a month that there is, and
      "YYYY-MM-DD" with a day that its month has, at midnight of the first day they name, and nothing
      else. */
  lemma DateTextsExactly(s: string, instant: string -> Option<Moment>)
    requires instant(s).None?
    ensures ParseValidTimeDate(s, instant)
            == if |s| == 4 && DigitsAt(s, 0, 4) then
                 Some((Moment(Date(NumberAt(s, 0, 4), 1, 1), 0, 0, 0, 0), Year))
               else if |s| == 7 && DigitsAt(s, 0, 4) && s[4] == '-' && DigitsAt(s, 5, 2) && 1 <= NumberAt(s, 5, 2) <= 12 then
                 Some((Moment(Date(NumberAt(s, 0, 4), NumberAt(s, 5, 2), 1), 0, 0, 0, 0), Month))
               else if && |s| == 10 && DigitsAt(s, 0, 4) && s[4] == '-' && DigitsAt(s, 5, 2) && s[7] == '-' && DigitsAt(s, 8, 2)
                       && 1 <= NumberAt(s, 5, 2) <= 12 && 1 <= NumberAt(s, 8, 2) <= LastDay(NumberAt(s, 0, 4), NumberAt(s, 5, 2)) then
                 Some((Moment(Date(NumberAt(s, 0, 4), NumberAt(s, 5, 2), NumberAt(s, 8, 2)), 0, 0, 0, 0), Day))
               else None
  {
    hide ParseDay;
    if |s| == 4 {
      YearText(s);
    } else if |s| == 7 {
      MonthText(s);
    } else if |s| == 10 {
      DayText(s);
    }
  }

  lemma YearText(s: string)
    requires |s| == 4
    ensures AllDigits(s) <==> DigitsAt(s, 0, 4)
    ensures AllDigits(s) ==> Value(s) == NumberAt(s, 0, 4)
  {
    assert s[0..4] == s;
    if DigitsAt(s, 0, 4) {
      NumberIsValue(s, 0, 4);
    }
  }

  lemma MonthText(s: string)
    requires |s| == 7
    ensures ParseDay(s + "-01")
            == if DigitsAt(s, 0, 4) && s[4] == '-' && DigitsAt(s, 5, 2) && 1 <= NumberAt(s, 5, 2) <= 12
               then Some(Date(NumberAt(s, 0, 4), NumberAt(s, 5, 2), 1)) else None
  {
    var t := s + "-01";
    hide ParseDay;
    DayText(t);
    NumberOfPrefix(s, "-01", 0, 4);
    NumberOfPrefix(s, "-01", 5, 2);
    assert t[7] == '-' && t[8] == '0' && t[9] == '1';
    assert NumberAt(t, 8, 0) == 0 && NumberAt(t, 8, 1) == 0 && NumberAt(t, 8, 2) == 1;
    if 1 <= NumberAt(s, 5, 2) <= 12 {
      MonthLengths(NumberAt(s, 0, 4), NumberAt(s, 5, 2));
    }
  }

  // ---- Order --------------------------------------------------------------------------------

  lemma DateFormsInOrder(a: Date, b: Date)
    requires ValidDate(a) && ValidDate(b) && FourDigitYear(a) && FourDigitYear(b)
    ensures TextBefore(YearForm(a), YearForm(b)) <==> a.year < b.year
    ensures TextBefore(MonthForm(a), MonthForm(b)) <==> a.year < b.year || (a.year == b.year && a.month < b.month)
    ensures TextBefore(DayForm(a), DayForm(b)) <==> DateBefore(a, b)
  {
    Powers();
    DigitsInOrder(a.year, b.year, 4);
    SamePrefix(['-'], Digits(a.month, 2), Digits(b.month, 2));
    DigitsInOrder(a.month, b.month, 2);
    NumberFirst(a.year, b.year, 4, ['-'] + Digits(a.month, 2), ['-'] + Digits(b.month, 2));
    SamePrefix(['-'], Digits(a.day, 2), Digits(b.day, 2));
    DigitsInOrder(a.day, b.day, 2);
    var da, db := ['-'] + Digits(a.day, 2), ['-'] + Digits(b.day, 2);
    SeparatedNumber('-', a.month, b.month, 2, da, db);
    NumberFirst(a.year, b.year, 4, ['-'] + (Digits(a.month, 2) + da), ['-'] + (Digits(b.month, 2) + db));
  }

  /** Within one precision the order of the texts is the order of the periods in time. */
  lemma TextOrderIsPeriodOrder(a: Moment, b: Moment, g: Option<DateGranularity>)
    requires Printable(a) && Printable(b)
    ensures ValidMoment(StartOf(a, Shown(g))) && ValidMoment(StartOf(b, Shown(g)))
    ensures TextBefore(FormatValidTimeEndpoint(Some(a), g).value, FormatValidTimeEndpoint(Some(b), g).value)
            <==> InstantOf(StartOf(a, Shown(g))) < InstantOf(StartOf(b, Shown(g)))
  {
    DateFormsInOrder(a.date, b.date);
    InstantsOrderMoments(StartOf(a, Shown(g)), StartOf(b, Shown(g)));
  }

  /** So for two accepted dates of one precision. */
  lemma ParsedInOrder(s: string, t: string, instant: string -> Option<Moment>)
    requires instant(s).None? && instant(t).None?
    requires ParseValidTimeDate(s, instant).Some? && ParseValidTimeDate(t, instant).Some?
    requires ParseValidTimeDate(s, instant).value.1 == ParseValidTimeDate(t, instant).value.1
    ensures ValidMoment(ParseValidTimeDate(s, instant).value.0) && ValidMoment(ParseValidTimeDate(t, instant).value.0)
    ensures TextBefore(s, t) <==> InstantOf(ParseValidTimeDate(s, instant).value.0) < InstantOf(ParseValidTimeDate(t, instant).value.0)
  {
    ParseThenPrint(s, instant);
    ParseThenPrint(t, instant);
    var (a, g) := ParseValidTimeDate(s, instant).value;
    var (b, _) := ParseValidTimeDate(t, instant).value;
    TextOrderIsPeriodOrder(a, b, Some(g));
  }
}
