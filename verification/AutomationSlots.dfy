/** Daily automation slots: an IST wall-clock time, its UTC cron fields and its instant on a given day. */
module AutomationSlots {
  import opened Numbers
  import opened CivilDates

  const IST_OFFSET_MINUTES := 5 * 60 + 30
  const IST_OFFSET_MS := IST_OFFSET_MINUTES * 60_000

  datatype Slot = Slot(istHour: int, istMinute: int)

  predicate WallClock(s: Slot) {
    0 <= s.istHour <= 23 && 0 <= s.istMinute <= 59
  }

  /** The `<min> <hour> * * *` fields. */
  datatype Cron = Cron(minute: int, hour: int)

  /** The remainder takes the sign of the dividend. */
  function Rem(a: int, b: int): int
    requires b > 0
  {
    if a >= 0 then a % b else -(-a % b)
  }

  function ToUtcCron(s: Slot): Cron {
    var istTotal := s.istHour * 60 + s.istMinute;
    var raw := Rem(istTotal - IST_OFFSET_MINUTES, 24 * 60);
    var utcTotal := if raw < 0 then raw + 24 * 60 else raw;
    Cron(Rem(utcTotal, 60), utcTotal / 60)
  }

  /** `Date.UTC`: a year from 0 to 99 means 1900 to 1999. */
  function DateUtc(year: int, month: int, date: int, hour: int, min: int, sec: int, ms: int): int {
    var full := if 0 <= year <= 99 then 1900 + year else year;
    MakeDay(full, month, date) * MS_PER_DAY + MakeTime(hour, min, sec, ms)
  }

  function IstClock(t: int): int {
    t + IST_OFFSET_MS
  }

  function IstDay(t: int): int {
    Day(IstClock(t))
  }

  function IstYear(t: int): int {
    YearFromDay(IstDay(t))
  }

  /** Times are milliseconds since the epoch, within the range a Date can hold. */
  function SlotInstantForIstDay(s: Slot, anchor: int): int {
    var day := Day(IstClock(anchor));
    var asIfUtc := DateUtc(YearFromDay(day), MonthFromDay(day), DateFromDay(day), s.istHour, s.istMinute, 0, 0);
    asIfUtc - IST_OFFSET_MS
  }

  const WEEKDAYS := ["SUN", "MON", "TUE", "WED", "THU", "FRI", "SAT"]

  function IstWeekday(t: int): string {
    WEEKDAYS[WeekDay(IstClock(t))]
  }

  predicate TwoDigitYear(y: int) {
    0 <= y <= 99
  }

  /** The day a slot asked for day `d` is put on: that day, or nineteen centuries later. */
  function SlotDay(d: int): int {
    if TwoDigitYear(YearFromDay(d)) then MakeDay(1900 + YearFromDay(d), MonthFromDay(d), DateFromDay(d)) else d
  }

  lemma SlotInstantIs(s: Slot, anchor: int)
    ensures SlotInstantForIstDay(s, anchor)
         == SlotDay(IstDay(anchor)) * MS_PER_DAY + s.istHour * 3_600_000 + s.istMinute * 60_000 - IST_OFFSET_MS
  {
    hide MakeDay, DateFromDay;
    CivilRoundTrip(IstDay(anchor));
  }

  lemma DayOfSum(day: int, within: int)
    requires 0 <= within < MS_PER_DAY
    ensures Day(day * MS_PER_DAY + within) == day && TimeWithinDay(day * MS_PER_DAY + within) == within
  {
    QuotientIs(day * MS_PER_DAY + within, MS_PER_DAY, day);
  }

  lemma SlotIstDay(s: Slot, anchor: int)
    requires WallClock(s)
    ensures IstDay(SlotInstantForIstDay(s, anchor)) == SlotDay(IstDay(anchor))
  {
    hide SlotInstantForIstDay, SlotDay;
    SlotInstantIs(s, anchor);
    DayOfSum(SlotDay(IstDay(anchor)), s.istHour * 3_600_000 + s.istMinute * 60_000);
  }

  lemma SameLeapRule(y: int)
    requires TwoDigitYear(y)
    ensures Leap(1900 + y) <==> Leap(y) && y != 0
  {
    QuotientIs(y, 100, 0);
    QuotientIs(1900 + y, 100, 19);
    QuotientIs(1900 + y, 4, 475 + y / 4);
  }

  lemma YearZeroIsLeap()
    ensures Leap(0)
  {
  }

  /** Days of the year 0, a leap year, lost in 1900, which is none: one from 1 March on. */
  function LostDays(d: int): int {
    if YearFromDay(d) == 0 && DayInYear(d) >= 60 then 1 else 0
  }

  /** The day nineteen centuries later, in closed form. */
  lemma ShiftedDay(d: int)
    requires TwoDigitYear(YearFromDay(d))
    ensures MakeDay(1900 + YearFromDay(d), MonthFromDay(d), DateFromDay(d))
         == DayFromYear(1900 + YearFromDay(d)) + DayInYear(d) - LostDays(d)
  {
    hide DayFromYear, Leap, MonthOf;
    SameLeapRule(YearFromDay(d));
    YearZeroIsLeap();
    MarchIsPastSixty(DayInYear(d), Leap(YearFromDay(d)));
    QuotientIs(MonthFromDay(d), 12, 0);
  }

  lemma MarchIsPastSixty(day: int, leap: bool)
    requires 0 <= day < DaysBefore(12, leap)
    ensures MonthOf(day, leap) >= 2 <==> day >= if leap then 60 else 59
  {
    hide MonthOf;
    var m := MonthOf(day, leap);
    if m >= 2 {
      MonthsIncrease(2, m, leap);
    } else {
      MonthsIncrease(m + 1, 2, leap);
    }
  }

  lemma CenturiesApart(d: int)
    requires TwoDigitYear(YearFromDay(d))
    ensures MakeDay(1900 + YearFromDay(d), MonthFromDay(d), DateFromDay(d)) > d + 1
    ensures YearFromDay(MakeDay(1900 + YearFromDay(d), MonthFromDay(d), DateFromDay(d))) >= 1900
  {
    hide DayFromYear, MakeDay, MonthFromDay, DateFromDay, Leap;
    var y, shifted := YearFromDay(d), MakeDay(1900 + YearFromDay(d), MonthFromDay(d), DateFromDay(d));
    ShiftedDay(d);
    YearsIncrease(y, 1900 + y);
    YearsIncrease(1900, 1900 + y);
    if YearFromDay(shifted) < 1900 {
      YearsIncrease(YearFromDay(shifted) + 1, 1900);
    }
  }

  /**
    The slot falls in the anchor's own IST day exactly when the anchor's IST year is not one of
    0 to 99, which `Date.UTC` reads as 1900 to 1999.
   */
  lemma SlotStaysInDayIff(s: Slot, anchor: int)
    requires WallClock(s)
    ensures IstDay(SlotInstantForIstDay(s, anchor)) == IstDay(anchor) <==> !TwoDigitYear(IstYear(anchor))
    ensures !TwoDigitYear(IstYear(anchor)) ==> IstWeekday(SlotInstantForIstDay(s, anchor)) == IstWeekday(anchor)
  {
    hide SlotInstantForIstDay, MakeDay;
    SlotIstDay(s, anchor);
    if TwoDigitYear(IstYear(anchor)) {
      CenturiesApart(IstDay(anchor));
    }
  }

  /** A time fires a daily cron when its UTC minute and hour are the cron's, on the whole minute. */
  predicate Fires(c: Cron, t: int) {
    HourFromTime(t) == c.hour && MinFromTime(t) == c.minute && t % 60_000 == 0
  }

  /** Minutes past UTC midnight of the slot. */
  function UtcMinutes(s: Slot): int {
    (s.istHour * 60 + s.istMinute - IST_OFFSET_MINUTES) % 1440
  }

  lemma CronIs(s: Slot)
    requires WallClock(s)
    ensures ToUtcCron(s) == Cron(UtcMinutes(s) % 60, UtcMinutes(s) / 60)
    ensures 0 <= ToUtcCron(s).hour < 24 && 0 <= ToUtcCron(s).minute < 60
  {
    var past := s.istHour * 60 + s.istMinute - IST_OFFSET_MINUTES;
    assert -1440 < past < 1440;
    RemSmall(past, 1440);
    QuotientIs(past, 1440, if past < 0 then -1 else 0);
    var minutes := UtcMinutes(s);
    RemSmall(minutes % 60, 60);
    assert Rem(minutes, 60) == minutes % 60;
  }

  lemma RemSmall(a: int, b: int)
    requires b > 0 && -b < a < b
    ensures Rem(a, b) == a
  {
    QuotientIs(if a < 0 then -a else a, b, 0);
  }

  /** UTC fields come from the time within the day alone. */
  lemma FieldsOfDay(t: int)
    ensures var within := TimeWithinDay(t);
            && HourFromTime(t) == within / 3_600_000
            && MinFromTime(t) == within / 60_000 % 60
            && t % 60_000 == within % 60_000
  {
    var day, within := t / MS_PER_DAY, t % MS_PER_DAY;
    var h, m := within / 3_600_000, within / 60_000;
    QuotientIs(t, 3_600_000, day * 24 + h);
    QuotientIs(day * 24 + h, 24, day);
    QuotientIs(t, 60_000, day * 1440 + m);
    QuotientIs(day * 1440 + m, 60, day * 24 + m / 60);
    QuotientIs(m, 60, m / 60);
  }

  /** Firing is being a given number of whole minutes past a UTC midnight. */
  lemma FiresIff(s: Slot, t: int)
    requires WallClock(s)
    ensures Fires(ToUtcCron(s), t) <==> TimeWithinDay(t) == UtcMinutes(s) * 60_000
  {
    hide ToUtcCron, HourFromTime, MinFromTime;
    CronIs(s);
    FieldsOfDay(t);
    var within, minutes := TimeWithinDay(t), UtcMinutes(s);
    QuotientIs(within, 60_000, within / 60_000);
    QuotientIs(within, 3_600_000, within / 60_000 / 60);
  }

  /** The slot's instant carries exactly the cron's UTC fields, on any day. */
  lemma InstantFiresCron(s: Slot, anchor: int)
    requires WallClock(s)
    ensures Fires(ToUtcCron(s), SlotInstantForIstDay(s, anchor))
  {
    hide SlotInstantForIstDay, SlotDay, ToUtcCron;
    SlotInstantIs(s, anchor);
    var t, minutes := SlotInstantForIstDay(s, anchor), s.istHour * 60 + s.istMinute - IST_OFFSET_MINUTES;
    if minutes >= 0 {
      DayOfSum(SlotDay(IstDay(anchor)), minutes * 60_000);
    } else {
      DayOfSum(SlotDay(IstDay(anchor)) - 1, (minutes + 1440) * 60_000);
    }
    FiresIff(s, t);
  }

  /** Within one IST day the cron fires at the slot's instant and at no other time. */
  lemma OneFiringPerDay(s: Slot, anchor: int, t: int)
    requires WallClock(s) && !TwoDigitYear(IstYear(anchor)) && IstDay(t) == IstDay(anchor)
    ensures Fires(ToUtcCron(s), t) <==> t == SlotInstantForIstDay(s, anchor)
  {
    hide SlotInstantForIstDay, ToUtcCron, YearFromDay;
    InstantFiresCron(s, anchor);
    FiresIff(s, t);
    FiresIff(s, SlotInstantForIstDay(s, anchor));
    SlotStaysInDayIff(s, anchor);
    SameDaySameTime(t, SlotInstantForIstDay(s, anchor));
  }

  /** Two instants less than a day apart with the same UTC time of day are one instant. */
  lemma SameDaySameTime(t: int, u: int)
    requires IstDay(t) == IstDay(u)
    ensures TimeWithinDay(t) == TimeWithinDay(u) <==> t == u
  {
  }

  /** Asking again from the instant itself changes nothing. */
  lemma SlotIdempotent(s: Slot, anchor: int)
    requires WallClock(s)
    ensures SlotInstantForIstDay(s, SlotInstantForIstDay(s, anchor)) == SlotInstantForIstDay(s, anchor)
  {
    hide SlotInstantForIstDay, YearFromDay, MakeDay;
    var t := SlotInstantForIstDay(s, anchor);
    SlotIstDay(s, anchor);
    SlotInstantIs(s, anchor);
    SlotInstantIs(s, t);
    if TwoDigitYear(IstYear(anchor)) {
      CenturiesApart(IstDay(anchor));
    }
  }

  /** 29 February of the year 0. */
  predicate LeapDayOfYearZero(d: int) {
    YearFromDay(d) == 0 && MonthFromDay(d) == 1 && DateFromDay(d) == 29
  }

  /**
    On consecutive IST days the instants are exactly one day apart, unless the days lie on either
    side of the years 0 to 99, or the first is 29 February of the year 0: 1900 has no such day, so
    the two get the same instant.
   */
  lemma SlotsADayApartIff(s: Slot, anchor: int, next: int)
    requires WallClock(s) && IstDay(next) == IstDay(anchor) + 1
    ensures SlotInstantForIstDay(s, next) - SlotInstantForIstDay(s, anchor) == MS_PER_DAY
       <==> && (TwoDigitYear(IstYear(anchor)) <==> TwoDigitYear(IstYear(next)))
            && !LeapDayOfYearZero(IstDay(anchor))
    ensures LeapDayOfYearZero(IstDay(anchor)) ==> SlotInstantForIstDay(s, next) == SlotInstantForIstDay(s, anchor)
  {
    hide SlotInstantForIstDay, SlotDay, YearFromDay, LeapDayOfYearZero;
    SlotInstantIs(s, anchor);
    SlotInstantIs(s, next);
    NextSlotDay(IstDay(anchor));
  }

  lemma NextSlotDay(d: int)
    ensures SlotDay(d + 1) == SlotDay(d) + 1
       <==> (TwoDigitYear(YearFromDay(d)) <==> TwoDigitYear(YearFromDay(d + 1))) && !LeapDayOfYearZero(d)
    ensures LeapDayOfYearZero(d) ==> SlotDay(d + 1) == SlotDay(d)
  {
    hide YearFromDay, MakeDay, LeapDayOfYearZero, DayFromYear, DayInYear, LostDays;
    LeapDayIs(d);
    if TwoDigitYear(YearFromDay(d)) {
      if TwoDigitYear(YearFromDay(d + 1)) {
        ShiftedDay(d);
        ShiftedDay(d + 1);
        NextShifted(d);
      } else {
        CenturiesApart(d);
        NextDay(d);
      }
    } else if TwoDigitYear(YearFromDay(d + 1)) {
      CenturiesApart(d + 1);
    }
  }

  lemma LeapDayIs(d: int)
    ensures LeapDayOfYearZero(d) <==> YearFromDay(d) == 0 && DayInYear(d) == 59
  {
  }

  /** One day on: within a year, or from the last day of a year to the first of the next. */
  lemma NextDay(d: int)
    ensures var y := YearFromDay(d);
            || (YearFromDay(d + 1) == y && DayInYear(d + 1) == DayInYear(d) + 1)
            || (YearFromDay(d + 1) == y + 1 && DayInYear(d + 1) == 0 && DayInYear(d) == DaysInYear(y) - 1)
  {
    hide DayFromYear, YearFromDay;
    var y := YearFromDay(d);
    YearLength(y);
    YearLength(y + 1);
    OneYear(d + 1, if d + 1 < DayFromYear(y + 1) then y else y + 1, YearFromDay(d + 1));
  }

  lemma NextShifted(d: int)
    requires TwoDigitYear(YearFromDay(d)) && TwoDigitYear(YearFromDay(d + 1))
    ensures DayFromYear(1900 + YearFromDay(d + 1)) + DayInYear(d + 1) - LostDays(d + 1)
         == DayFromYear(1900 + YearFromDay(d)) + DayInYear(d) - LostDays(d)
          + if YearFromDay(d) == 0 && DayInYear(d) == 59 then 0 else 1
  {
    hide DayFromYear, YearFromDay, DayInYear, Leap;
    var y := YearFromDay(d);
    NextDay(d);
    YearLength(1900 + y);
    SameLeapRule(y);
    YearZeroIsLeap();
  }

  /** The cron's UTC time is the slot's five and a half hours earlier, round the clock. */
  lemma CronIsFiveAndAHalfHoursEarlier(s: Slot)
    requires WallClock(s)
    ensures var c := ToUtcCron(s);
            && 0 <= c.hour < 24 && 0 <= c.minute < 60
            && (c.hour * 60 + c.minute + 330) % 1440 == s.istHour * 60 + s.istMinute
  {
    hide ToUtcCron;
    CronIs(s);
    var wall, minutes := s.istHour * 60 + s.istMinute, UtcMinutes(s);
    QuotientIs(wall - 330, 1440, if wall >= 330 then 0 else -1);
    QuotientIs(minutes, 60, minutes / 60);
    assert ToUtcCron(s).hour * 60 + ToUtcCron(s).minute == minutes;
    hide UtcMinutes;
    QuotientIs(minutes + 330, 1440, if wall >= 330 then 0 else 1);
  }

  /** An instant shown five and a half hours on is the slot's wall-clock time of its day. */
  lemma InstantShowsWallClock(s: Slot, anchor: int)
    requires WallClock(s)
    ensures SlotInstantForIstDay(s, anchor) + 19_800_000
         == SlotDay(IstDay(anchor)) * 86_400_000 + (s.istHour * 60 + s.istMinute) * 60_000
  {
    hide SlotInstantForIstDay, SlotDay;
    SlotInstantIs(s, anchor);
  }

  function Tomorrow(weekday: string): string {
    match weekday
    case "MON" => "TUE"
    case "TUE" => "WED"
    case "WED" => "THU"
    case "THU" => "FRI"
    case "FRI" => "SAT"
    case "SAT" => "SUN"
    case _ => "MON"
  }

  /** Weekdays follow one another from IST midnight to IST midnight, and 1 January 2000 was a Saturday. */
  lemma WeekdaysFollow(t: int, next: int)
    ensures IstDay(next) == IstDay(t) + 1 ==> IstWeekday(next) == Tomorrow(IstWeekday(t))
    ensures IstDay(t) == MakeDay(2000, 0, 1) ==> IstWeekday(t) == "SAT"
    ensures IstDay(t) * 86_400_000 <= t + 19_800_000 < IstDay(t) * 86_400_000 + 86_400_000
  {
    hide Leap;
    QuotientIs(31, 4, 7);
    QuotientIs(99, 100, 0);
    QuotientIs(399, 400, 0);
    QuotientIs(0, 12, 0);
    assert MakeDay(2000, 0, 1) == 10_957;
    var a, b := (IstDay(t) + 4) % 7, (IstDay(t) + 5) % 7;
    assert b == if a == 6 then 0 else a + 1;
  }
}
