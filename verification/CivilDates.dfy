/** Proleptic Gregorian dates of time values, as in section 21.4.1 of ECMA-262. */
module CivilDates {
  import opened Numbers

  const MS_PER_DAY := 86_400_000

  function Day(t: int): int { t / MS_PER_DAY }

  function TimeWithinDay(t: int): int { t % MS_PER_DAY }

  function HourFromTime(t: int): int { t / 3_600_000 % 24 }

  function MinFromTime(t: int): int { t / 60_000 % 60 }

  function WeekDay(t: int): int { (Day(t) + 4) % 7 }

  predicate Leap(y: int) {
    y % 4 == 0 && (y % 100 != 0 || y % 400 == 0)
  }

  function DaysInYear(y: int): int {
    if Leap(y) then 366 else 365
  }

  /** The day number of the first of January. */
  function DayFromYear(y: int): int {
    365 * (y - 1970) + (y - 1969) / 4 - (y - 1901) / 100 + (y - 1601) / 400
  }

  lemma YearLength(y: int)
    ensures DayFromYear(y + 1) == DayFromYear(y) + DaysInYear(y)
  {
    FoursPassed(y);
    HundredsPassed(y);
    FourHundredsPassed(y);
    if y % 400 == 0 {
      Divides(y, 100, 4);
    }
    if y % 100 == 0 {
      Divides(y, 4, 25);
    }
  }

  /** From one year to the next one more multiple is passed, or none. */
  lemma FoursPassed(y: int)
    ensures (y - 1968) / 4 == (y - 1969) / 4 + if y % 4 == 0 then 1 else 0
  {
    QuotientIs(y - 1968, 4, y / 4 - 492);
    QuotientIs(y - 1969, 4, if y % 4 == 0 then y / 4 - 493 else y / 4 - 492);
  }

  lemma HundredsPassed(y: int)
    ensures (y - 1900) / 100 == (y - 1901) / 100 + if y % 100 == 0 then 1 else 0
  {
    QuotientIs(y - 1900, 100, y / 100 - 19);
    QuotientIs(y - 1901, 100, if y % 100 == 0 then y / 100 - 20 else y / 100 - 19);
  }

  lemma FourHundredsPassed(y: int)
    ensures (y - 1600) / 400 == (y - 1601) / 400 + if y % 400 == 0 then 1 else 0
  {
    QuotientIs(y - 1600, 400, y / 400 - 4);
    QuotientIs(y - 1601, 400, if y % 400 == 0 then y / 400 - 5 else y / 400 - 4);
  }

  lemma Divides(y: int, a: int, b: int)
    requires a > 0 && b > 0 && y % (a * b) == 0
    ensures y % a == 0
  {
    var q := y / (a * b);
    assert q * (a * b) == q * b * a;
    QuotientIs(y, a, q * b);
  }

  /** Days are counted from 1 January 1970. */
  lemma EpochDay()
    ensures DayFromYear(1970) == 0 && MakeDay(1970, 0, 1) == 0
  {
    hide Leap;
    QuotientIs(1, 4, 0);
    QuotientIs(69, 100, 0);
    QuotientIs(369, 400, 0);
    QuotientIs(0, 12, 0);
  }

  /** `y` is the year that contains day `d`. */
  predicate InYear(d: int, y: int) {
    DayFromYear(y) <= d < DayFromYear(y + 1)
  }

  lemma {:induction false} YearsIncrease(a: int, b: int)
    requires a <= b
    ensures DayFromYear(a) + 365 * (b - a) <= DayFromYear(b)
    decreases b - a
  {
    if a < b {
      YearsIncrease(a, b - 1);
      YearLength(b - 1);
    }
  }

  lemma OneYear(d: int, a: int, b: int)
    requires InYear(d, a) && InYear(d, b)
    ensures a == b
  {
    hide DayFromYear;
    if a < b {
      YearsIncrease(a + 1, b);
    } else if b < a {
      YearsIncrease(b + 1, a);
    }
  }

  /** Looks for the year from a guess. */
  function YearFrom(d: int, guess: int): (y: int)
    ensures InYear(d, y)
    decreases if d < DayFromYear(guess) then DayFromYear(guess) - d else d - DayFromYear(guess) + 1
  {
    YearLength(guess);
    YearLength(guess - 1);
    if d < DayFromYear(guess) then
      if d >= DayFromYear(guess - 1) then guess - 1 else YearFrom(d, guess - 1)
    else if d < DayFromYear(guess + 1) then guess
    else YearFrom(d, guess + 1)
  }

  function YearFromDay(d: int): (y: int)
    ensures InYear(d, y)
  {
    YearFrom(d, 1970)
  }

  /** Days of the year before each month; month 12 ends the year. */
  function DaysBefore(month: int, leap: bool): int
    requires 0 <= month <= 12
  {
    var common := [0, 31, 59, 90, 120, 151, 181, 212, 243, 273, 304, 334, 365];
    common[month] + if leap && month >= 2 then 1 else 0
  }

  /** April, June, September and November have 30 days, February 28 or 29, the others 31. */
  lemma MonthLengths(month: int, leap: bool)
    requires 0 <= month < 12
    ensures DaysBefore(0, leap) == 0
    ensures DaysBefore(month + 1, leap) - DaysBefore(month, leap)
         == if month in {3, 5, 8, 10} then 30 else if month != 1 then 31 else if leap then 29 else 28
  {
  }

  /** The month that holds a day of the year counted from 0. */
  function MonthOf(day: int, leap: bool): (m: int)
    requires 0 <= day < DaysBefore(12, leap)
    ensures 0 <= m < 12 && DaysBefore(m, leap) <= day < DaysBefore(m + 1, leap)
  {
    if day < DaysBefore(1, leap) then 0
    else if day < DaysBefore(2, leap) then 1
    else if day < DaysBefore(3, leap) then 2
    else if day < DaysBefore(4, leap) then 3
    else if day < DaysBefore(5, leap) then 4
    else if day < DaysBefore(6, leap) then 5
    else if day < DaysBefore(7, leap) then 6
    else if day < DaysBefore(8, leap) then 7
    else if day < DaysBefore(9, leap) then 8
    else if day < DaysBefore(10, leap) then 9
    else if day < DaysBefore(11, leap) then 10
    else 11
  }

  function DayInYear(d: int): (day: int)
    ensures 0 <= day < DaysInYear(YearFromDay(d))
  {
    YearLength(YearFromDay(d));
    d - DayFromYear(YearFromDay(d))
  }

  function MonthFromDay(d: int): (m: int)
    ensures 0 <= m < 12
  {
    MonthOf(DayInYear(d), Leap(YearFromDay(d)))
  }

  function DateFromDay(d: int): int {
    DayInYear(d) - DaysBefore(MonthFromDay(d), Leap(YearFromDay(d))) + 1
  }

  /** MakeDay: the day number of a date given by year, month from 0 and day of month, all possibly out of range. */
  function MakeDay(year: int, month: int, date: int): int {
    var ym, mn := year + month / 12, month % 12;
    DayFromYear(ym) + DaysBefore(mn, Leap(ym)) + date - 1
  }

  function MakeTime(hour: int, min: int, sec: int, ms: int): int {
    hour * 3_600_000 + min * 60_000 + sec * 1_000 + ms
  }

  /** Taking a day apart into year, month and date and putting it together again. */
  lemma CivilRoundTrip(d: int)
    ensures MakeDay(YearFromDay(d), MonthFromDay(d), DateFromDay(d)) == d
  {
    hide DayFromYear, Leap, MonthOf;
    QuotientIs(MonthFromDay(d), 12, 0);
  }

  /** And the other way round: a real date comes apart into what it was made from. */
  lemma CivilRoundTripBack(year: int, month: int, date: int)
    requires 0 <= month < 12 && 1 <= date <= DaysBefore(month + 1, Leap(year)) - DaysBefore(month, Leap(year))
    ensures var d := MakeDay(year, month, date);
            YearFromDay(d) == year && MonthFromDay(d) == month && DateFromDay(d) == date
  {
    hide DayFromYear, Leap, MonthOf;
    var d := MakeDay(year, month, date);
    YearLength(year);
    MonthsIncrease(month + 1, 12, Leap(year));
    MonthsIncrease(0, month, Leap(year));
    QuotientIs(month, 12, 0);
    OneYear(d, year, YearFromDay(d));
    OneMonth(DayInYear(d), month, MonthFromDay(d), Leap(year));
  }

  lemma OneMonth(day: int, a: int, b: int, leap: bool)
    requires 0 <= a < 12 && 0 <= b < 12
    requires DaysBefore(a, leap) <= day < DaysBefore(a + 1, leap)
    requires DaysBefore(b, leap) <= day < DaysBefore(b + 1, leap)
    ensures a == b
  {
  }

  lemma MonthsIncrease(a: int, b: int, leap: bool)
    requires 0 <= a <= b <= 12
    ensures DaysBefore(a, leap) <= DaysBefore(b, leap)
  {
  }
}
