/** Timestamps as the candle table keeps them: ISO 8601 text, compared character by character. */
module IsoText {
  import opened Numbers
  import opened CivilDates

  const DAY_SECONDS := 86_400

  // ---------- the order of texts ----------

  predicate Less(a: string, b: string) {
    b != [] && (a == [] || a[0] < b[0] || (a[0] == b[0] && Less(a[1..], b[1..])))
  }

  /** Of two texts exactly one comes first, unless they are the same. */
  lemma {:induction false} LessTotal(a: string, b: string)
    ensures a == b <==> !Less(a, b) && !Less(b, a)
    ensures !(Less(a, b) && Less(b, a))
  {
    if a != [] && b != [] {
      LessTotal(a[1..], b[1..]);
      assert a == [a[0]] + a[1..] && b == [b[0]] + b[1..];
    }
  }

  lemma {:induction false} LessTransitive(a: string, b: string, c: string)
    requires !Less(b, a) && !Less(c, b)
    ensures !Less(c, a)
  {
    if a != [] && b != [] && c != [] {
      if a[0] == b[0] == c[0] {
        LessTransitive(a[1..], b[1..], c[1..]);
      }
    }
  }

  /** Texts with fronts of one length are ordered by the fronts first. */
  lemma {:induction false} LessByFront(a: string, b: string, x: string, y: string)
    requires |a| == |b|
    ensures Less(a + x, b + y) <==> Less(a, b) || (a == b && Less(x, y))
  {
    if a == [] {
      assert a + x == x && b + y == y;
    } else {
      LessByFront(a[1..], b[1..], x, y);
      assert (a + x)[1..] == a[1..] + x && (b + y)[1..] == b[1..] + y;
      assert a == [a[0]] + a[1..] && b == [b[0]] + b[1..];
      LessTotal(a, b);
    }
  }

  // ---------- numerals of fixed width ----------

  /** The last `width` decimal digits. */
  function Digits(n: int, width: nat): (s: string)
    ensures |s| == width
    decreases width
  {
    if width == 0 then "" else Digits(n / 10, width - 1) + [('0' as int + n % 10) as char]
  }

  function Ten(width: nat): nat {
    if width == 0 then 1 else 10 * Ten(width - 1)
  }

  lemma {:induction false} DigitsIncrease(a: nat, b: nat, width: nat)
    requires a < b < Ten(width)
    ensures Less(Digits(a, width), Digits(b, width))
  {
    var x, y := [('0' as int + a % 10) as char], [('0' as int + b % 10) as char];
    LessByFront(Digits(a / 10, width - 1), Digits(b / 10, width - 1), x, y);
    if a / 10 < b / 10 {
      DigitsIncrease(a / 10, b / 10, width - 1);
    }
  }

  // ---------- the format ----------

  /** Three numerals with a separator, as dates and times of day are written. */
  function Fields(a: int, width: nat, separator: char, b: int, c: int): (s: string)
    ensures |s| == width + 6
  {
    Digits(a, width) + ([separator] + (Digits(b, 2) + ([separator] + Digits(c, 2))))
  }

  predicate FieldsFit(a: int, width: nat, b: int, c: int) {
    0 <= a < Ten(width) && 0 <= b < 100 && 0 <= c < 100
  }

  lemma FieldsIncrease(a: int, b: int, c: int, a': int, b': int, c': int, width: nat, separator: char)
    requires FieldsFit(a, width, b, c) && FieldsFit(a', width, b', c')
    requires a < a' || (a == a' && (b < b' || (b == b' && c < c')))
    ensures Less(Fields(a, width, separator, b, c), Fields(a', width, separator, b', c'))
  {
    hide Digits, Less;
    assert Ten(2) == 100;
    var x, x' := Digits(b, 2) + ([separator] + Digits(c, 2)), Digits(b', 2) + ([separator] + Digits(c', 2));
    LessByFront(Digits(a, width), Digits(a', width), [separator] + x, [separator] + x');
    if a < a' {
      DigitsIncrease(a, a', width);
    } else {
      LessByFront([separator], [separator], x, x');
      LessByFront(Digits(b, 2), Digits(b', 2), [separator] + Digits(c, 2), [separator] + Digits(c', 2));
      if b < b' {
        DigitsIncrease(b, b', 2);
      } else {
        LessByFront([separator], [separator], Digits(c, 2), Digits(c', 2));
        DigitsIncrease(c, c', 2);
      }
    }
  }

  /** `YYYY-MM-DD` of a day number. */
  function DateText(d: int): (s: string)
    ensures |s| == 10
  {
    Fields(YearFromDay(d), 4, '-', MonthFromDay(d) + 1, DateFromDay(d))
  }

  /** `HH:MM:SS` of a second of the day. */
  function ClockText(second: int): (s: string)
    ensures |s| == 8
  {
    Fields(second / 3600, 2, ':', second / 60 % 60, second % 60)
  }

  /** `isoformat()` of a timestamp on a whole second. */
  function IsoFormat(ts: int): (s: string)
    ensures |s| == 19
  {
    DateText(ts / DAY_SECONDS) + ("T" + ClockText(ts % DAY_SECONDS))
  }

  /** Years that take four digits; a pandas timestamp lies in 1677 to 2262. */
  predicate FourDigitDay(d: int) {
    0 <= YearFromDay(d) <= 9999
  }

  predicate FourDigitYear(ts: int) {
    FourDigitDay(ts / DAY_SECONDS)
  }

  // ---------- the order of texts is the order of times ----------

  lemma DateFits(d: int)
    requires FourDigitDay(d)
    ensures FieldsFit(YearFromDay(d), 4, MonthFromDay(d) + 1, DateFromDay(d))
  {
    assert Ten(4) == 10_000;
  }

  lemma DatesIncrease(d: int, e: int)
    requires d < e && FourDigitDay(d) && FourDigitDay(e)
    ensures Less(DateText(d), DateText(e))
  {
    hide Less, Fields, FieldsFit, Leap, DayFromYear;
    DateFits(d);
    DateFits(e);
    var y, z := YearFromDay(d), YearFromDay(e);
    if z < y {
      YearsIncrease(z + 1, y);
    } else if y == z && MonthFromDay(e) < MonthFromDay(d) {
      MonthsIncrease(MonthFromDay(e) + 1, MonthFromDay(d), Leap(y));
    }
    FieldsIncrease(y, MonthFromDay(d) + 1, DateFromDay(d), z, MonthFromDay(e) + 1, DateFromDay(e), 4, '-');
  }

  lemma ClockParts(s: int)
    requires 0 <= s < DAY_SECONDS
    ensures s == 3600 * (s / 3600) + 60 * (s / 60 % 60) + s % 60
    ensures FieldsFit(s / 3600, 2, s / 60 % 60, s % 60)
  {
    assert Ten(2) == 100;
    QuotientIs(s, 3600, s / 60 / 60);
  }

  lemma ClocksIncrease(s: int, t: int)
    requires 0 <= s < t < DAY_SECONDS
    ensures Less(ClockText(s), ClockText(t))
  {
    hide Less, Fields, FieldsFit;
    ClockParts(s);
    ClockParts(t);
    PartsIncrease(s, s / 3600, s / 60 % 60, s % 60, t, t / 3600, t / 60 % 60, t % 60);
    FieldsIncrease(s / 3600, s / 60 % 60, s % 60, t / 3600, t / 60 % 60, t % 60, 2, ':');
  }

  lemma PartsIncrease(s: int, h: int, m: int, c: int, t: int, h': int, m': int, c': int)
    requires s < t && s == 3600 * h + 60 * m + c && t == 3600 * h' + 60 * m' + c'
    requires 0 <= m < 60 && 0 <= m' < 60 && 0 <= c < 60 && 0 <= c' < 60
    ensures h < h' || (h == h' && (m < m' || (m == m' && c < c')))
  {
  }

  lemma EarlierIsLess(a: int, b: int)
    requires a < b && FourDigitYear(a) && FourDigitYear(b)
    ensures Less(IsoFormat(a), IsoFormat(b))
  {
    hide Less, DateText, ClockText, FourDigitDay;
    var d, e, s, t := a / DAY_SECONDS, b / DAY_SECONDS, a % DAY_SECONDS, b % DAY_SECONDS;
    LessByFront(DateText(d), DateText(e), "T" + ClockText(s), "T" + ClockText(t));
    if d < e {
      DatesIncrease(d, e);
    } else {
      LessByFront("T", "T", ClockText(s), ClockText(t));
      ClocksIncrease(s, t);
    }
  }

  /** Comparing the stored texts is comparing the times. */
  lemma TextOrderIsTimeOrder(a: int, b: int)
    requires FourDigitYear(a) && FourDigitYear(b)
    ensures Less(IsoFormat(a), IsoFormat(b)) <==> a < b
    ensures IsoFormat(a) == IsoFormat(b) <==> a == b
  {
    hide Less, IsoFormat, FourDigitYear;
    LessTotal(IsoFormat(a), IsoFormat(b));
    if a < b {
      EarlierIsLess(a, b);
    } else if b < a {
      EarlierIsLess(b, a);
    }
  }

  /**
    A bound that starts with a date and goes on with nothing, or with a character before `T` such
    as a blank, stands for midnight of that date, whatever time of day follows.
   */
  lemma DayBoundIsMidnight(ts: int, d: int, tail: string)
    requires FourDigitYear(ts) && FourDigitDay(d) && (tail == "" || tail[0] < 'T')
    ensures Less(IsoFormat(ts), DateText(d) + tail) <==> ts < d * DAY_SECONDS
  {
    hide DateText, ClockText, FourDigitDay;
    var e, clock := ts / DAY_SECONDS, "T" + ClockText(ts % DAY_SECONDS);
    LessByFront(DateText(e), DateText(d), clock, tail);
    LessTotal(DateText(e), DateText(d));
    if e < d {
      DatesIncrease(e, d);
    } else if d < e {
      DatesIncrease(d, e);
    }
  }

  /** So a bound written with a blank cuts at its own time only when that time is midnight. */
  lemma BlankBoundCutsIff(d: int, second: int)
    requires FourDigitDay(d) && 0 <= second < DAY_SECONDS
    ensures (forall ts | FourDigitYear(ts) ::
               Less(IsoFormat(ts), DateText(d) + (" " + ClockText(second))) <==> ts < d * DAY_SECONDS + second)
       <==> second == 0
  {
    hide Less, IsoFormat, DateText, ClockText, FourDigitDay;
    var midnight, bound := d * DAY_SECONDS, DateText(d) + (" " + ClockText(second));
    forall ts | FourDigitYear(ts)
      ensures Less(IsoFormat(ts), bound) <==> ts < midnight
    {
      DayBoundIsMidnight(ts, d, " " + ClockText(second));
    }
    assert FourDigitYear(midnight);
  }

  // ---------- reading a timestamp back ----------

  function NumberOf(s: string): int {
    if s == "" then 0 else NumberOf(s[..|s| - 1]) * 10 + (s[|s| - 1] as int - '0' as int)
  }

  lemma {:induction false} NumberOfDigits(n: nat, width: nat)
    requires n < Ten(width)
    ensures NumberOf(Digits(n, width)) == n
  {
    if width > 0 {
      NumberOfDigits(n / 10, width - 1);
      var s := Digits(n, width);
      assert s[..|s| - 1] == Digits(n / 10, width - 1);
    }
  }

  lemma FieldsRead(a: int, width: nat, separator: char, b: int, c: int)
    requires FieldsFit(a, width, b, c)
    ensures var s := Fields(a, width, separator, b, c);
            && NumberOf(s[..width]) == a && NumberOf(s[width + 1..width + 3]) == b && NumberOf(s[width + 4..]) == c
            && s[width] == s[width + 3] == separator
  {
    hide Digits, NumberOf;
    var s := Fields(a, width, separator, b, c);
    assert Ten(2) == 100;
    NumberOfDigits(a, width);
    NumberOfDigits(b, 2);
    NumberOfDigits(c, 2);
    assert s[..width] == Digits(a, width);
    assert s[width + 1..width + 3] == Digits(b, 2);
    assert s[width + 4..] == Digits(c, 2);
  }

  /** The time a text of the form `YYYY-MM-DDTHH:MM:SS` stands for, months counted from 01. */
  function Parse(s: string): int
    requires |s| == 19
  {
    MakeDay(NumberOf(s[..4]), NumberOf(s[5..7]) - 1, NumberOf(s[8..10])) * 86_400
    + NumberOf(s[11..13]) * 3600 + NumberOf(s[14..16]) * 60 + NumberOf(s[17..19])
  }

  /** Reading a stored timestamp gives the time it was written from. */
  lemma ParsesBack(ts: int)
    requires FourDigitYear(ts)
    ensures Parse(IsoFormat(ts)) == ts
    ensures var s := IsoFormat(ts); s[4] == s[7] == '-' && s[10] == 'T' && s[13] == s[16] == ':'
  {
    hide NumberOf, Fields, FieldsFit, MakeDay;
    var s, d, second := IsoFormat(ts), ts / DAY_SECONDS, ts % DAY_SECONDS;
    var date, clock := DateText(d), ClockText(second);
    DateFits(d);
    ClockParts(second);
    CivilRoundTrip(d);
    FieldsRead(YearFromDay(d), 4, '-', MonthFromDay(d) + 1, DateFromDay(d));
    FieldsRead(second / 3600, 2, ':', second / 60 % 60, second % 60);
    hide DateText, ClockText;
    assert s[..4] == date[..4] && s[5..7] == date[5..7] && s[8..10] == date[8..];
    assert s[11..13] == clock[..2] && s[14..16] == clock[3..5] && s[17..19] == clock[6..];
  }
}
