/** The proleptic Gregorian calendar, and moments on it as nanoseconds of the UTC time line. Leap
    seconds do not exist here. */
module Calendar {
  import opened Ledger

  datatype Date = Date(year: int, month: nat, day: nat)

  datatype Moment = Moment(date: Date, hour: nat, minute: nat, second: nat, nano: nat)

  predicate IsLeap(year: int) {
    year % 4 == 0 && (year % 100 != 0 || year % 400 == 0)
  }

  function DaysInMonth(year: int, month: nat): (d: nat)
    ensures 1 <= month <= 12 ==> 28 <= d <= 31
  {
    if month == 2 then (if IsLeap(year) then 29 else 28)
    else if month in {4, 6, 9, 11} then 30
    else 31
  }

  predicate ValidDate(d: Date) {
    1 <= d.month <= 12 && 1 <= d.day <= DaysInMonth(d.year, d.month)
  }

  predicate ValidMoment(m: Moment) {
    ValidDate(m.date) && m.hour < 24 && m.minute < 60 && m.second < 60 && m.nano < 1_000_000_000
  }

  predicate FourDigitYear(d: Date) {
    0 <= d.year <= 9999
  }

  /** The multiples of `k` among the years before `year`, from 0 on; division rounds down. */
  function MultiplesBefore(year: int, k: int): int
    requires k > 0
  {
    (year + k - 1) / k
  }

  /** Days from the start of year 0. */
  function DaysBeforeYear(year: int): int {
    365 * year + MultiplesBefore(year, 4) - MultiplesBefore(year, 100) + MultiplesBefore(year, 400)
  }

  function DaysBeforeMonth(year: int, month: nat): nat
    requires 1 <= month <= 13
  {
    if month == 1 then 0 else DaysBeforeMonth(year, month - 1) + DaysInMonth(year, month - 1)
  }

  function DayNumber(d: Date): int
    requires ValidDate(d)
  {
    DaysBeforeYear(d.year) + DaysBeforeMonth(d.year, d.month) + d.day - 1
  }

  const EPOCH := Date(1970, 1, 1)
  const NANOS: int := 1_000_000_000

  function SecondOfDay(m: Moment): nat {
    m.hour * 3600 + m.minute * 60 + m.second
  }

  function InstantOf(m: Moment): Instant
    requires ValidMoment(m)
  {
    ((DayNumber(m.date) - DayNumber(EPOCH)) * 86400 + SecondOfDay(m)) * NANOS + m.nano
  }

  // ---- The civil calendar -------------------------------------------------------------------

  /** Days from March 1 to the first of the month that is `k` months after March. */
  function MarchDays(k: nat): nat {
    (153 * k + 2) / 5
  }

  function LastDay(year: int, month: nat): int {
    if month == 2 then (if year % 4 == 0 && (year % 100 != 0 || year % 400 == 0) then 29 else 28)
    else MarchDays((month + 9) % 12 + 1) - MarchDays((month + 9) % 12)
  }

  /** Days from 1 January 1970, counted in years that begin in March and eras of 400 years. */
  function CivilDays(d: Date): int {
    var y := if d.month <= 2 then d.year - 1 else d.year;
    var era, ofEra := y / 400, y % 400;
    var ofYear := MarchDays((d.month + 9) % 12) + d.day - 1;
    146_097 * era + (365 * ofEra + ofEra / 4 - ofEra / 100 + ofYear) - 719_468
  }

  lemma MonthLengths(year: int, month: nat)
    requires 1 <= month <= 12
    ensures DaysInMonth(year, month) == LastDay(year, month)
  {
    assert MarchDays(0) == 0 && MarchDays(1) == 31 && MarchDays(2) == 61 && MarchDays(3) == 92 && MarchDays(4) == 122
        && MarchDays(5) == 153 && MarchDays(6) == 184 && MarchDays(7) == 214 && MarchDays(8) == 245 && MarchDays(9) == 275
        && MarchDays(10) == 306 && MarchDays(11) == 337;
  }

  /** A date is valid exactly when its day is one of its month's. */
  lemma ValidExactly(d: Date)
    ensures ValidDate(d) <==> 1 <= d.month <= 12 && 1 <= d.day <= LastDay(d.year, d.month)
  {
    if 1 <= d.month <= 12 {
      MonthLengths(d.year, d.month);
    }
  }

  lemma {:induction false} DaysFromMarch(year: int, month: nat)
    requires 3 <= month <= 12
    ensures DaysBeforeMonth(year, month) == 31 + DaysInMonth(year, 2) + MarchDays(month - 3)
  {
    if month == 3 {
      assert DaysBeforeMonth(year, 2) == 31;
    } else {
      DaysFromMarch(year, month - 1);
      MonthLengths(year, month - 1);
    }
  }

  lemma ErasAndYears(y: int)
    ensures var era, ofEra := y / 400, y % 400;
            365 * y + y / 4 - y / 100 + y / 400 == 146_097 * era + 365 * ofEra + ofEra / 4 - ofEra / 100
  {
    var era, ofEra := y / 400, y % 400;
    assert y == 400 * era + ofEra;
    assert y / 4 == 100 * era + ofEra / 4;
    assert y / 100 == 4 * era + ofEra / 100;
  }

  lemma YearsBefore(year: int)
    ensures DaysBeforeYear(year) == 365 * year + (year - 1) / 4 - (year - 1) / 100 + (year - 1) / 400 + 1
  {
    assert (year + 3) / 4 == (year - 1) / 4 + 1;
    assert (year + 99) / 100 == (year - 1) / 100 + 1;
    assert (year + 399) / 400 == (year - 1) / 400 + 1;
  }

  lemma EpochIs()
    ensures DayNumber(EPOCH) == 719_528
  {
  }

  lemma BeforeMarch(d: Date)
    requires ValidDate(d) && d.month <= 2
    ensures DayNumber(d) - 719_528 == CivilDays(d)
  {
    var y := d.year - 1;
    YearsBefore(d.year);
    ErasAndYears(y);
    assert MarchDays((d.month + 9) % 12) == DaysBeforeMonth(d.year, d.month) + 306;
    hide DaysBeforeYear, DaysBeforeMonth, MarchDays;
  }

  lemma FromMarchOn(d: Date)
    requires ValidDate(d) && d.month >= 3
    ensures DayNumber(d) - 719_528 == CivilDays(d)
  {
    YearsBefore(d.year + 1);
    YearLength(d.year);
    ErasAndYears(d.year);
    DaysFromMarch(d.year, d.month);
    assert (d.month + 9) % 12 == d.month - 3;
    hide DaysBeforeYear, DaysBeforeMonth, MarchDays;
  }

  /** Counted either way, a date is the same number of days after the epoch. */
  lemma DaysAreCivil(d: Date)
    requires ValidDate(d)
    ensures DayNumber(d) - DayNumber(EPOCH) == CivilDays(d)
  {
    hide DayNumber, CivilDays;
    EpochIs();
    if d.month <= 2 {
      BeforeMarch(d);
    } else {
      FromMarchOn(d);
    }
  }

  /** So an instant counts the nanoseconds from the start of 1970. */
  lemma InstantIsCivil(m: Moment)
    requires ValidMoment(m)
    ensures InstantOf(m) == (((CivilDays(m.date) * 24 + m.hour) * 60 + m.minute) * 60 + m.second) * 1_000_000_000 + m.nano
  {
    DaysAreCivil(m.date);
  }

  // ---- Order --------------------------------------------------------------------------------

  predicate DateBefore(a: Date, b: Date) {
    || a.year < b.year
    || (a.year == b.year && (a.month < b.month || (a.month == b.month && a.day < b.day)))
  }

  predicate MomentBefore(a: Moment, b: Moment) {
    || DateBefore(a.date, b.date)
    || (a.date == b.date && TimeBefore(a, b))
  }

  predicate TimeBefore(a: Moment, b: Moment) {
    || a.hour < b.hour
    || (a.hour == b.hour
        && (|| a.minute < b.minute
            || (a.minute == b.minute && (a.second < b.second || (a.second == b.second && a.nano < b.nano)))))
  }

  lemma FourthYears(year: int)
    ensures MultiplesBefore(year + 1, 4) == MultiplesBefore(year, 4) + if year % 4 == 0 then 1 else 0
  {
  }

  lemma Centuries(year: int)
    ensures MultiplesBefore(year + 1, 100) == MultiplesBefore(year, 100) + if year % 100 == 0 then 1 else 0
  {
  }

  lemma FourthCenturies(year: int)
    ensures MultiplesBefore(year + 1, 400) == MultiplesBefore(year, 400) + if year % 400 == 0 then 1 else 0
  {
  }

  lemma CenturyIsFourthYear(q: int)
    ensures (100 * q) % 4 == 0
  {
  }

  lemma FourthCenturyIsCentury(q: int)
    ensures (400 * q) % 100 == 0
  {
  }

  lemma Multiples(year: int)
    ensures year % 400 == 0 ==> year % 100 == 0
    ensures year % 100 == 0 ==> year % 4 == 0
  {
    CenturyIsFourthYear(year / 100);
    FourthCenturyIsCentury(year / 400);
  }

  lemma YearLength(year: int)
    ensures DaysBeforeYear(year + 1) - DaysBeforeYear(year) == if IsLeap(year) then 366 else 365
  {
    FourthYears(year);
    Centuries(year);
    FourthCenturies(year);
    Multiples(year);
  }

  lemma MonthsFillTheYear(year: int)
    ensures DaysBeforeMonth(year, 13) == DaysBeforeYear(year + 1) - DaysBeforeYear(year)
  {
    YearLength(year);
    assert DaysBeforeMonth(year, 2) == 31;
    assert DaysBeforeMonth(year, 3) == 31 + DaysInMonth(year, 2);
    assert DaysBeforeMonth(year, 5) == DaysBeforeMonth(year, 3) + 61;
    assert DaysBeforeMonth(year, 7) == DaysBeforeMonth(year, 5) + 61;
    assert DaysBeforeMonth(year, 9) == DaysBeforeMonth(year, 7) + 62;
    assert DaysBeforeMonth(year, 11) == DaysBeforeMonth(year, 9) + 61;
    assert DaysBeforeMonth(year, 13) == DaysBeforeMonth(year, 11) + 61;
  }

  lemma {:induction false} MonthsInOrder(year: int, m: nat, n: nat)
    requires 1 <= m < n <= 13
    ensures DaysBeforeMonth(year, m) + DaysInMonth(year, m) <= DaysBeforeMonth(year, n)
  {
    if m < n - 1 {
      MonthsInOrder(year, m, n - 1);
    }
  }

  lemma {:induction false} YearsInOrder(y: int, z: int)
    requires y < z
    ensures DaysBeforeYear(y + 1) <= DaysBeforeYear(z)
    decreases z - y
  {
    if y + 1 < z {
      YearsInOrder(y, z - 1);
      YearLength(z - 1);
    }
  }

  lemma LaterDate(a: Date, b: Date)
    requires ValidDate(a) && ValidDate(b) && DateBefore(a, b)
    ensures DayNumber(a) < DayNumber(b)
  {
    if a.year < b.year {
      YearsInOrder(a.year, b.year);
      MonthsFillTheYear(a.year);
      MonthsInOrder(a.year, a.month, 13);
    } else if a.month < b.month {
      MonthsInOrder(a.year, a.month, b.month);
    }
  }

  lemma LaterTime(a: Moment, b: Moment)
    requires ValidMoment(a) && ValidMoment(b) && TimeBefore(a, b)
    ensures SecondOfDay(a) * NANOS + a.nano < SecondOfDay(b) * NANOS + b.nano
  {
    assert SecondOfDay(a) < SecondOfDay(b) || (SecondOfDay(a) == SecondOfDay(b) && a.nano < b.nano);
  }

  lemma LaterMoment(a: Moment, b: Moment)
    requires ValidMoment(a) && ValidMoment(b) && MomentBefore(a, b)
    ensures InstantOf(a) < InstantOf(b)
  {
    if DateBefore(a.date, b.date) {
      LaterDate(a.date, b.date);
      assert SecondOfDay(a) < 86400;
    } else {
      LaterTime(a, b);
    }
  }

  /** The time line orders moments as their fields do, and no two moments share an instant. */
  lemma InstantsOrderMoments(a: Moment, b: Moment)
    requires ValidMoment(a) && ValidMoment(b)
    ensures InstantOf(a) < InstantOf(b) <==> MomentBefore(a, b)
    ensures InstantOf(a) == InstantOf(b) <==> a == b
  {
    if MomentBefore(a, b) {
      LaterMoment(a, b);
    } else if MomentBefore(b, a) {
      LaterMoment(b, a);
    }
  }
}
