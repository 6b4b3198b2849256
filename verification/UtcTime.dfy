/** The whole-second UTC timestamps of the cache index: the civil calendar
    behind gmtime/timegm, the fixed-width text form and its scanner. */
module UtcTime {
  import opened Prelude
  import opened TextOrder
  import opened Text

  // ---------- instants and whole seconds ----------

  /** system_clock ticks per second (100 ns ticks). */
  const TICKS: int := 10_000_000

  /** time_point_cast<seconds>: truncation toward zero. */
  function ToSeconds(t: int): int {
    if t >= 0 then t / TICKS else -((-t) / TICKS)
  }

  lemma ToSecondsMonotone(a: int, b: int)
    requires a <= b
    ensures ToSeconds(a) <= ToSeconds(b)
  {
  }

  /** Whole seconds are cut off toward zero, on both sides of the epoch. */
  lemma ToSecondsTruncates(t: int)
    ensures t >= 0 ==> ToSeconds(t) * TICKS <= t < (ToSeconds(t) + 1) * TICKS
    ensures ToSeconds(-t) == -ToSeconds(t)
  {
  }

  /** Flooring again after a round trip through whole seconds changes nothing. */
  lemma ToSecondsOfWhole(s: int, k: int)
    requires s >= 0
    ensures ToSeconds(s * TICKS) == s
    ensures k >= 0 ==> ToSeconds(k + s * TICKS) == ToSeconds(k) + s
  {
  }

  /** 10000-01-01T00:00:00Z, the first second whose year needs five digits. */
  const END_OF_YEAR_9999: int := 253402300800

  predicate Representable(s: int) {
    0 <= s < END_OF_YEAR_9999
  }

  // ---------- the civil calendar ----------

  predicate Leap(y: int) {
    y % 4 == 0 && (y % 100 != 0 || y % 400 == 0)
  }

  function DaysInYear(y: int): int {
    if Leap(y) then 366 else 365
  }

  /** Days from 1970-01-01 to January 1st of year y. */
  function DaysBeforeYear(y: int): int {
    365 * (y - 1970) + (y - 1969) / 4 - (y - 1901) / 100 + (y - 1601) / 400
  }

  function DaysInMonth(m: int, leap: bool): int
    requires 1 <= m <= 12
  {
    if m == 2 then (if leap then 29 else 28)
    else if m == 4 || m == 6 || m == 9 || m == 11 then 30
    else 31
  }

  /** The months have the lengths of the Gregorian calendar. */
  lemma MonthLengths(m: int)
    requires 1 <= m <= 12
    ensures DaysInMonth(m, false) == [31, 28, 31, 30, 31, 30, 31, 31, 30, 31, 30, 31][m - 1]
    ensures DaysInMonth(m, true) == [31, 29, 31, 30, 31, 30, 31, 31, 30, 31, 30, 31][m - 1]
  {
  }

  /** Days from January 1st to the first day of month m. */
  function DaysBeforeMonth(m: int, leap: bool): int
    requires 1 <= m <= 12
    decreases m
  {
    if m == 1 then 0 else DaysBeforeMonth(m - 1, leap) + DaysInMonth(m - 1, leap)
  }

  datatype Fields = Fields(year: int, month: int, day: int, hour: int, minute: int, second: int)

  predicate Civil(f: Fields) {
    && 1 <= f.month <= 12
    && 1 <= f.day <= DaysInMonth(f.month, Leap(f.year))
    && 0 <= f.hour < 24 && 0 <= f.minute < 60 && 0 <= f.second < 60
  }

  function YearOf(y: int, day: int): (r: (int, int))
    requires day >= 0
    ensures r.0 >= y
    ensures 0 <= r.1 < DaysInYear(r.0)
    ensures DaysBeforeYear(r.0) + r.1 == DaysBeforeYear(y) + day
    decreases day
  {
    YearLength(y);
    if day < DaysInYear(y) then (y, day) else YearOf(y + 1, day - DaysInYear(y))
  }

  function MonthOf(m: int, leap: bool, day: int): (r: (int, int))
    requires 1 <= m <= 12
    requires 0 <= day < (if leap then 366 else 365) - DaysBeforeMonth(m, leap)
    ensures m <= r.0 <= 12
    ensures 0 <= r.1 < DaysInMonth(r.0, leap)
    ensures DaysBeforeMonth(r.0, leap) + r.1 == DaysBeforeMonth(m, leap) + day
    decreases 12 - m
  {
    YearEnds(leap);
    if day < DaysInMonth(m, leap) then (m, day)
    else MonthOf(m + 1, leap, day - DaysInMonth(m, leap))
  }

  lemma FourthYear(y: int)
    ensures (y - 1968) / 4 - (y - 1969) / 4 == if y % 4 == 0 then 1 else 0
  {
    var q, r := y / 4, y % 4;
    assert y - 1968 == 4 * (q - 492) + r;
    assert y - 1969 == 4 * (q - 493) + (r + 3);
  }

  lemma HundredthYear(y: int)
    ensures (y - 1900) / 100 - (y - 1901) / 100 == if y % 100 == 0 then 1 else 0
  {
    var q, r := y / 100, y % 100;
    assert y - 1900 == 100 * (q - 19) + r;
    assert y - 1901 == 100 * (q - 20) + (r + 99);
  }

  lemma FourHundredthYear(y: int)
    ensures (y - 1600) / 400 - (y - 1601) / 400 == if y % 400 == 0 then 1 else 0
  {
    var q, r := y / 400, y % 400;
    assert y - 1600 == 400 * (q - 4) + r;
    assert y - 1601 == 400 * (q - 5) + (r + 399);
  }

  lemma Multiples(y: int)
    ensures y % 400 == 0 ==> y % 100 == 0
    ensures y % 100 == 0 ==> y % 4 == 0
  {
    var q, r := y / 400, y % 400;
    assert y == 100 * (4 * q) + r;
    var p := y / 100;
    assert y == 4 * (25 * p) + y % 100;
  }

  lemma YearLength(y: int)
    ensures DaysBeforeYear(y + 1) == DaysBeforeYear(y) + DaysInYear(y)
  {
    FourthYear(y);
    HundredthYear(y);
    FourHundredthYear(y);
    Multiples(y);
  }

  lemma YearEnds(leap: bool)
    ensures DaysBeforeMonth(12, leap) + 31 == if leap then 366 else 365
  {
    assert DaysBeforeMonth(3, leap) == if leap then 60 else 59;
    assert DaysBeforeMonth(6, leap) == DaysBeforeMonth(3, leap) + 92;
    assert DaysBeforeMonth(9, leap) == DaysBeforeMonth(6, leap) + 92;
  }

  /** Year, month and day of month of a day number. */
  function DateOf(day: int): (d: (int, int, int))
    requires day >= 0
    ensures d.0 >= 1970 && 1 <= d.1 <= 12 && 1 <= d.2 <= DaysInMonth(d.1, Leap(d.0))
    ensures DaysBeforeYear(d.0) + DaysBeforeMonth(d.1, Leap(d.0)) + d.2 - 1 == day
  {
    hide YearOf, MonthOf, DaysBeforeYear, Leap;
    EpochStartsAtZero();
    var (year, yday) := YearOf(1970, day);
    LengthOfYear(year);
    var (month, mday) := MonthOf(1, Leap(year), yday);
    (year, month, mday + 1)
  }

  lemma EpochStartsAtZero()
    ensures DaysBeforeYear(1970) == 0
  {
  }

  lemma LengthOfYear(y: int)
    ensures DaysInYear(y) == if Leap(y) then 366 else 365
  {
  }

  /** Hour, minute and second of a second of the day. */
  function ClockOf(rest: int): (c: (int, int, int))
    requires 0 <= rest < 86400
    ensures 0 <= c.0 < 24 && 0 <= c.1 < 60 && 0 <= c.2 < 60
    ensures c.0 * 3600 + c.1 * 60 + c.2 == rest
  {
    ClockDigits(rest);
    (rest / 3600, rest / 60 % 60, rest % 60)
  }

  lemma ClockDigits(rest: int)
    requires 0 <= rest < 86400
    ensures 0 <= rest / 3600 < 24 && 0 <= rest / 60 % 60 < 60 && 0 <= rest % 60 < 60
    ensures (rest / 3600) * 3600 + (rest / 60 % 60) * 60 + rest % 60 == rest
  {
    var minutes := rest / 60;
    assert rest == 60 * minutes + rest % 60;
    assert minutes == 60 * (minutes / 60) + minutes % 60;
    assert rest / 3600 == minutes / 60;
  }

  /** gmtime: the broken-down UTC time of a non-negative second count. */
  function GmTime(s: int): (f: Fields)
    requires s >= 0
    ensures Civil(f) && f.year >= 1970
    ensures DaysBeforeYear(f.year) + DayOfYear(f) == s / 86400
    ensures TimeOfDay(f) == s % 86400
  {
    hide DateOf, ClockOf, DaysBeforeYear, DaysBeforeMonth, DaysInMonth, Leap;
    var date, clock := DateOf(s / 86400), ClockOf(s % 86400);
    Fields(date.0, date.1, date.2, clock.0, clock.1, clock.2)
  }

  function DayOfYear(f: Fields): int
    requires Civil(f)
  {
    DaysBeforeMonth(f.month, Leap(f.year)) + f.day - 1
  }

  function TimeOfDay(f: Fields): int {
    f.hour * 3600 + f.minute * 60 + f.second
  }

  /** timegm: any field values, normalised as the C library does. */
  function TimeGm(f: Fields): int {
    var year := f.year + (f.month - 1) / 12;
    var month := (f.month - 1) % 12 + 1;
    (DaysBeforeYear(year) + DaysBeforeMonth(month, Leap(year)) + f.day - 1) * 86400 + TimeOfDay(f)
  }

  lemma TimeGmOfCivil(f: Fields)
    requires Civil(f)
    ensures TimeGm(f) == (DaysBeforeYear(f.year) + DayOfYear(f)) * 86400 + TimeOfDay(f)
    ensures 0 <= TimeOfDay(f) < 86400
  {
  }

  /** Fields out of range carry over into the next larger one. */
  lemma TimeGmCarries(f: Fields, k: int)
    ensures TimeGm(f.(month := f.month + 12)) == TimeGm(f.(year := f.year + 1))
    ensures TimeGm(f.(day := f.day + k)) == TimeGm(f.(hour := f.hour + 24 * k)) == TimeGm(f) + 86400 * k
    ensures TimeGm(f.(hour := f.hour + k)) == TimeGm(f.(minute := f.minute + 60 * k)) == TimeGm(f) + 3600 * k
    ensures TimeGm(f.(minute := f.minute + k)) == TimeGm(f.(second := f.second + 60 * k)) == TimeGm(f) + 60 * k
  {
    hide DaysBeforeYear, DaysBeforeMonth, Leap;
    assert (f.month + 12 - 1) / 12 == (f.month - 1) / 12 + 1 && (f.month + 12 - 1) % 12 == (f.month - 1) % 12;
  }

  /** timegm inverts gmtime. */
  lemma TimeGmInvertsGmTime(s: int)
    requires s >= 0
    ensures TimeGm(GmTime(s)) == s
  {
    TimeGmOfCivil(GmTime(s));
  }

  predicate FieldsLess(a: Fields, b: Fields) {
    a.year < b.year || (a.year == b.year &&
    (a.month < b.month || (a.month == b.month &&
    (a.day < b.day || (a.day == b.day &&
    (a.hour < b.hour || (a.hour == b.hour &&
    (a.minute < b.minute || (a.minute == b.minute && a.second < b.second)))))))))
  }

  lemma {:induction false} YearsApart(a: int, b: int)
    requires a < b
    ensures DaysBeforeYear(a) + DaysInYear(a) <= DaysBeforeYear(b)
    decreases b - a
  {
    YearLength(a);
    if a + 1 < b {
      YearsApart(a + 1, b);
    }
  }

  lemma {:induction false} MonthsApart(a: int, b: int, leap: bool)
    requires 1 <= a < b <= 12
    ensures DaysBeforeMonth(a, leap) + DaysInMonth(a, leap) <= DaysBeforeMonth(b, leap)
    decreases b - a
  {
    if a + 1 < b {
      MonthsApart(a + 1, b, leap);
    }
  }

  lemma DayOfYearBound(f: Fields)
    requires Civil(f)
    ensures 0 <= DayOfYear(f) < DaysInYear(f.year)
  {
    YearEnds(Leap(f.year));
    if f.month < 12 {
      MonthsApart(f.month, 12, Leap(f.year));
    }
    MonthStart(f.month, Leap(f.year));
  }

  lemma {:induction false} MonthStart(m: int, leap: bool)
    requires 1 <= m <= 12
    ensures DaysBeforeMonth(m, leap) >= 0
  {
    if m > 1 {
      MonthsApart(1, m, leap);
    }
  }

  /** Calendar order is second order. */
  lemma TimeGmMonotone(a: Fields, b: Fields)
    requires Civil(a) && Civil(b) && FieldsLess(a, b)
    ensures TimeGm(a) < TimeGm(b)
  {
    DayOfYearBound(a);
    DayOfYearBound(b);
    TimeGmOfCivil(a);
    TimeGmOfCivil(b);
    if a.year < b.year {
      YearsApart(a.year, b.year);
      assert DaysBeforeYear(a.year) + DayOfYear(a) < DaysBeforeYear(b.year) + DayOfYear(b);
    } else if a.month < b.month {
      MonthsApart(a.month, b.month, Leap(a.year));
    }
  }

  /** The seconds the index stores are those of the years 1970 to 9999. */
  lemma RepresentableIff(f: Fields)
    requires Civil(f)
    ensures Representable(TimeGm(f)) <==> 1970 <= f.year <= 9999
  {
    var first, end := Fields(1970, 1, 1, 0, 0, 0), Fields(10000, 1, 1, 0, 0, 0);
    YearStart(1970);
    YearStart(10000);
    FirstYears();
    hide TimeGm, DaysBeforeYear;
    if f != first {
      if FieldsLess(f, first) {
        TimeGmMonotone(f, first);
      } else {
        FieldsTrichotomy(f, first);
        TimeGmMonotone(first, f);
      }
    }
    if f != end {
      if FieldsLess(f, end) {
        TimeGmMonotone(f, end);
      } else {
        FieldsTrichotomy(f, end);
        TimeGmMonotone(end, f);
      }
    }
  }

  lemma YearStart(y: int)
    ensures Civil(Fields(y, 1, 1, 0, 0, 0)) && TimeGm(Fields(y, 1, 1, 0, 0, 0)) == DaysBeforeYear(y) * 86400
  {
    hide DaysBeforeYear, Leap;
    TimeGmOfCivil(Fields(y, 1, 1, 0, 0, 0));
  }

  lemma FirstYears()
    ensures DaysBeforeYear(1970) == 0 && DaysBeforeYear(10000) * 86400 == END_OF_YEAR_9999
  {
  }

  // ---------- the text form ----------

  function Digit(d: int): char
    requires 0 <= d < 10
  {
    "0123456789"[d]
  }

  predicate IsDigit(c: char) {
    '0' <= c <= '9'
  }

  function DigitValue(c: char): int
    requires IsDigit(c)
  {
    c as int - '0' as int
  }

  lemma DigitInverse(d: int)
    requires 0 <= d < 10
    ensures Digit(d) as int == '0' as int + d
    ensures IsDigit(Digit(d)) && DigitValue(Digit(d)) == d
  {
  }

  function Pad2(n: int): string
    requires 0 <= n < 100
  {
    [Digit(n / 10), Digit(n % 10)]
  }

  function Pad4(n: int): string
    requires 0 <= n < 10000
  {
    Pad2(n / 100) + Pad2(n % 100)
  }

  function ClockText(f: Fields): string
    requires Civil(f)
  {
    Pad2(f.hour) + (":" + (Pad2(f.minute) + (":" + (Pad2(f.second) + "Z"))))
  }

  function DateText(f: Fields): string
    requires Civil(f) && 0 <= f.year < 10000
  {
    Pad4(f.year) + ("-" + (Pad2(f.month) + ("-" + (Pad2(f.day) + ("T" + ClockText(f))))))
  }

  lemma YearInRange(s: int)
    requires Representable(s)
    ensures 1970 <= GmTime(s).year < 10000
  {
    var f := GmTime(s);
    DayOfYearBound(f);
    if f.year > 10000 {
      YearsApart(10000, f.year);
    }
    assert DaysBeforeYear(10000) == 2932897;
  }

  /** The text stored for whole second s. */
  function SecondText(s: int): string
    requires Representable(s)
  {
    YearInRange(s);
    DateText(GmTime(s))
  }

  /** format_utc. */
  function FormatUtc(t: int): string
    requires Representable(ToSeconds(t))
  {
    SecondText(ToSeconds(t))
  }

  /** The layout of the stored text: year, month and day in decimal digits at fixed
      places, marked off, and the time of day behind them. */
  lemma TextLayout(f: Fields)
    requires Civil(f) && 0 <= f.year < 10000
    ensures var t := DateText(f);
            && |t| == 20 && t[4] == '-' && t[7] == '-' && t[10] == 'T' && t[11..] == ClockText(f)
            && IsDigit(t[0]) && IsDigit(t[1]) && IsDigit(t[2]) && IsDigit(t[3])
            && IsDigit(t[5]) && IsDigit(t[6]) && IsDigit(t[8]) && IsDigit(t[9])
            && f.year == 1000 * DigitValue(t[0]) + 100 * DigitValue(t[1]) + 10 * DigitValue(t[2]) + DigitValue(t[3])
            && f.month == 10 * DigitValue(t[5]) + DigitValue(t[6]) && f.day == 10 * DigitValue(t[8]) + DigitValue(t[9])
  {
    ClockLayout(f);
    Pad2Digits(f.year / 100);
    Pad2Digits(f.year % 100);
    Pad2Digits(f.month);
    Pad2Digits(f.day);
    hide Pad2, Digit, IsDigit, DigitValue, ClockText;
  }

  /** The time of day: hour, minute and second, and the mark for UTC. */
  lemma ClockLayout(f: Fields)
    requires Civil(f)
    ensures var t := ClockText(f);
            && |t| == 9 && t[2] == ':' && t[5] == ':' && t[8] == 'Z'
            && IsDigit(t[0]) && IsDigit(t[1]) && IsDigit(t[3]) && IsDigit(t[4]) && IsDigit(t[6]) && IsDigit(t[7])
            && f.hour == 10 * DigitValue(t[0]) + DigitValue(t[1]) && f.minute == 10 * DigitValue(t[3]) + DigitValue(t[4])
            && f.second == 10 * DigitValue(t[6]) + DigitValue(t[7])
  {
    Pad2Digits(f.hour);
    Pad2Digits(f.minute);
    Pad2Digits(f.second);
    hide Pad2, Digit, IsDigit, DigitValue;
  }

  lemma Pad2Digits(n: int)
    requires 0 <= n < 100
    ensures |Pad2(n)| == 2 && IsDigit(Pad2(n)[0]) && IsDigit(Pad2(n)[1])
    ensures n == 10 * DigitValue(Pad2(n)[0]) + DigitValue(Pad2(n)[1])
  {
    DigitInverse(n / 10);
    DigitInverse(n % 10);
  }

  // ---------- text order is time order ----------

  lemma Pad2Step(m: int, n: int, x: string, y: string)
    requires 0 <= m < 100 && 0 <= n < 100
    requires m < n || (m == n && TextLess(x, y))
    ensures TextLess(Pad2(m) + x, Pad2(n) + y)
  {
    if m == n {
      SamePrefix(Pad2(m), x, y);
    } else {
      DigitInverse(m / 10);
      DigitInverse(m % 10);
      DigitInverse(n / 10);
      DigitInverse(n % 10);
      var a, b := Pad2(m) + x, Pad2(n) + y;
      if m / 10 == n / 10 {
        assert a[0] == b[0] && a[1..][0] == a[1] && b[1..][0] == b[1] && a[1] < b[1];
        assert TextLess(a[1..], b[1..]);
      } else {
        assert a[0] < b[0];
      }
    }
  }

  lemma Pad4Step(m: int, n: int, x: string, y: string)
    requires 0 <= m < 10000 && 0 <= n < 10000
    requires m < n || (m == n && TextLess(x, y))
    ensures TextLess(Pad4(m) + x, Pad4(n) + y)
  {
    if m < n && m / 100 == n / 100 {
      Pad2Step(m % 100, n % 100, x, y);
    } else if m == n {
      Pad2Step(m % 100, n % 100, x, y);
    }
    Pad2Step(m / 100, n / 100, Pad2(m % 100) + x, Pad2(n % 100) + y);
    assert Pad4(m) + x == Pad2(m / 100) + (Pad2(m % 100) + x);
    assert Pad4(n) + y == Pad2(n / 100) + (Pad2(n % 100) + y);
  }

  lemma ClockOrder(a: Fields, b: Fields)
    requires Civil(a) && Civil(b)
    requires FieldsLess(a.(year := 0, month := 0, day := 0), b.(year := 0, month := 0, day := 0))
    ensures TextLess(ClockText(a), ClockText(b))
  {
    var sa, sb := Pad2(a.second) + "Z", Pad2(b.second) + "Z";
    var ma, mb := Pad2(a.minute) + (":" + sa), Pad2(b.minute) + (":" + sb);
    if a.hour == b.hour {
      if a.minute == b.minute {
        Pad2Step(a.second, b.second, "Z", "Z");
        SamePrefix(":", sa, sb);
      }
      Pad2Step(a.minute, b.minute, ":" + sa, ":" + sb);
      SamePrefix(":", ma, mb);
    }
    Pad2Step(a.hour, b.hour, ":" + ma, ":" + mb);
  }

  lemma DateOrder(a: Fields, b: Fields)
    requires Civil(a) && Civil(b) && 0 <= a.year < 10000 && 0 <= b.year < 10000
    requires FieldsLess(a, b)
    ensures TextLess(DateText(a), DateText(b))
  {
    var da, db := Pad2(a.day) + ("T" + ClockText(a)), Pad2(b.day) + ("T" + ClockText(b));
    var ma, mb := Pad2(a.month) + ("-" + da), Pad2(b.month) + ("-" + db);
    if a.year == b.year {
      if a.month == b.month {
        if a.day == b.day {
          ClockOrder(a, b);
          SamePrefix("T", ClockText(a), ClockText(b));
        }
        Pad2Step(a.day, b.day, "T" + ClockText(a), "T" + ClockText(b));
        SamePrefix("-", da, db);
      }
      Pad2Step(a.month, b.month, "-" + da, "-" + db);
      SamePrefix("-", ma, mb);
    }
    Pad4Step(a.year, b.year, "-" + ma, "-" + mb);
  }

  /** Comparing stored timestamps as text is comparing the seconds. */
  lemma TextOrderIsTimeOrder(a: int, b: int)
    requires Representable(a) && Representable(b)
    ensures a < b <==> TextLess(SecondText(a), SecondText(b))
    ensures a == b <==> SecondText(a) == SecondText(b)
    ensures a <= b <==> TextAtMost(SecondText(a), SecondText(b))
  {
    if a < b {
      LaterTextIsGreater(a, b);
      Irreflexive(SecondText(a));
    } else if b < a {
      LaterTextIsGreater(b, a);
      Asymmetric(SecondText(b), SecondText(a));
      Irreflexive(SecondText(b));
    } else {
      Irreflexive(SecondText(a));
    }
  }

  lemma LaterTextIsGreater(a: int, b: int)
    requires Representable(a) && Representable(b) && a < b
    ensures TextLess(SecondText(a), SecondText(b))
  {
    var f, g := GmTime(a), GmTime(b);
    YearInRange(a);
    YearInRange(b);
    TimeGmInvertsGmTime(a);
    TimeGmInvertsGmTime(b);
    if !FieldsLess(f, g) && f != g {
      TimeGmMonotone(g, f);
    }
    DateOrder(f, g);
  }

  // ---------- reading the text back ----------

  /** The longest run of digits, accumulated in base ten. */
  function ScanDigits(s: string, acc: int): (r: (int, string))
    ensures |r.1| <= |s|
  {
    if s == [] || !IsDigit(s[0]) then (acc, s)
    else ScanDigits(s[1..], 10 * acc + DigitValue(s[0]))
  }

  /** scanf's %d: blanks, an optional sign, at least one digit. */
  function ScanInt(s: string): (r: Option<(int, string)>) {
    if s == [] then None
    else if IsSpace(s[0]) then ScanInt(s[1..])
    else
      var signed := s[0] == '-' || s[0] == '+';
      var body := if signed then s[1..] else s;
      if body == [] || !IsDigit(body[0]) then None
      else
        var (n, rest) := ScanDigits(body, 0);
        Some((if s[0] == '-' then -n else n, rest))
  }

  /** %d followed by one literal character of the format. */
  function ScanIntThen(s: string, c: char): (r: Option<(int, string)>) {
    match ScanInt(s)
    case None => None
    case Some(r) => if r.1 == [] || r.1[0] != c then None else Some((r.0, r.1[1..]))
  }

  /** sscanf with "%d-%d-%dT%d:%d:%dZ": six conversions are enough, so the
      trailing Z is not required. */
  function ScanFields(s: string): Option<Fields> {
    match ScanIntThen(s, '-') case None => None case Some(y) =>
    match ScanIntThen(y.1, '-') case None => None case Some(mo) =>
    match ScanIntThen(mo.1, 'T') case None => None case Some(d) =>
    match ScanIntThen(d.1, ':') case None => None case Some(h) =>
    match ScanIntThen(h.1, ':') case None => None case Some(mi) =>
    match ScanInt(mi.1) case None => None case Some(sec) =>
      Some(Fields(y.0, mo.0, d.0, h.0, mi.0, sec.0))
  }

  /** parse_utc, in whole seconds: -1 is timegm's failure value. */
  function ParseUtc(s: string): Option<int> {
    match ScanFields(s)
    case None => None
    case Some(f) => if TimeGm(f) == -1 then None else Some(TimeGm(f))
  }

  /** A conversion skips the blanks of the C locale and takes one sign. */
  lemma ScanSkips(c: char, text: string)
    ensures c as int in {9, 10, 11, 12, 13, 32} ==> ScanInt([c] + text) == ScanInt(text)
    ensures text != [] && IsDigit(text[0]) ==>
              var (n, rest) := ScanDigits(text, 0);
              ScanInt(text) == ScanInt("+" + text) == Some((n, rest)) && ScanInt("-" + text) == Some((-n, rest))
  {
    hide ScanDigits;
    assert ([c] + text)[1..] == text && ("+" + text)[1..] == text && ("-" + text)[1..] == text;
  }

  lemma ScanPad2(n: int, c: char, rest: string)
    requires 0 <= n < 100 && !IsDigit(c)
    ensures ScanInt(Pad2(n) + ([c] + rest)) == Some((n, [c] + rest))
    ensures ScanIntThen(Pad2(n) + ([c] + rest), c) == Some((n, rest))
  {
    DigitInverse(n / 10);
    DigitInverse(n % 10);
    var s := Pad2(n) + ([c] + rest);
    assert s[1..] == [Digit(n % 10)] + ([c] + rest);
    assert s[1..][1..] == [c] + rest;
    assert ScanDigits(s[1..][1..], n) == (n, [c] + rest);
    assert ScanDigits(s[1..], n / 10) == (n, [c] + rest);
    assert ScanDigits(s, 0) == (n, [c] + rest);
    assert ([c] + rest)[1..] == rest;
  }

  lemma ScanOneDigit(d: int, rest: string, acc: int)
    requires 0 <= d < 10
    ensures ScanDigits([Digit(d)] + rest, acc) == ScanDigits(rest, 10 * acc + d)
  {
    DigitInverse(d);
    assert ([Digit(d)] + rest)[1..] == rest;
  }

  lemma ScanFrom(d: int, rest: string, c: char, n: int, left: string)
    requires 0 <= d < 10 && ScanDigits([Digit(d)] + rest, 0) == (n, [c] + left)
    ensures ScanIntThen([Digit(d)] + rest, c) == Some((n, left))
  {
    DigitInverse(d);
    hide ScanDigits;
    assert ([c] + left)[1..] == left;
  }

  lemma ScanPad4(n: int, c: char, rest: string)
    requires 0 <= n < 10000 && !IsDigit(c)
    ensures ScanIntThen(Pad4(n) + ([c] + rest), c) == Some((n, rest))
  {
    hide ScanDigits, ScanIntThen, Digit, IsDigit;
    var hi, lo := n / 100, n % 100;
    var s4 := [c] + rest;
    var s3 := [Digit(lo % 10)] + s4;
    var s2 := [Digit(lo / 10)] + s3;
    var s1 := [Digit(hi % 10)] + s2;
    assert Pad4(n) + s4 == [Digit(hi / 10)] + s1;
    ScanOneDigit(hi / 10, s1, 0);
    ScanOneDigit(hi % 10, s2, hi / 10);
    ScanOneDigit(lo / 10, s3, hi);
    ScanOneDigit(lo % 10, s4, 10 * hi + lo / 10);
    NoMoreDigits(s4, n);
    ScanFrom(hi / 10, s1, c, n, rest);
  }

  lemma NoMoreDigits(s: string, acc: int)
    requires s != [] && !IsDigit(s[0])
    ensures ScanDigits(s, acc) == (acc, s)
  {
  }

  /** The scanner recovers the fields from their text. */
  lemma ScanDate(f: Fields)
    requires Civil(f) && 0 <= f.year < 10000
    ensures ScanFields(DateText(f)) == Some(f)
  {
    var t5 := Pad2(f.second) + "Z";
    var t4 := Pad2(f.minute) + (":" + t5);
    var t3 := Pad2(f.hour) + (":" + t4);
    var t2 := Pad2(f.day) + ("T" + t3);
    var t1 := Pad2(f.month) + ("-" + t2);
    ScanPad4(f.year, '-', t1);
    ScanPad2(f.month, '-', t2);
    ScanPad2(f.day, 'T', t3);
    ScanPad2(f.hour, ':', t4);
    ScanPad2(f.minute, ':', t5);
    ScanPad2(f.second, 'Z', "");
    assert "Z" == ['Z'] + "";
    assert DateText(f) == Pad4(f.year) + ("-" + t1);
  }

  /** parse_utc inverts format_utc on every second from 1970 to year 9999. */
  lemma ParseInvertsFormat(s: int)
    requires Representable(s)
    ensures ParseUtc(SecondText(s)) == Some(s)
  {
    YearInRange(s);
    TimeGmInvertsGmTime(s);
    ScanDate(GmTime(s));
  }

  /** A due time read back from the index equals the floored heap entry. */
  lemma StoredInstantReadsBack(t: int)
    requires Representable(ToSeconds(t))
    ensures ParseUtc(FormatUtc(t)) == Some(ToSeconds(t))
  {
    ParseInvertsFormat(ToSeconds(t));
  }

  const LAST_BEFORE_EPOCH := Fields(1969, 12, 31, 23, 59, 59)

  lemma LastSecondBeforeEpoch()
    ensures Civil(LAST_BEFORE_EPOCH) && TimeGm(LAST_BEFORE_EPOCH) == -1
  {
    YearEnds(false);
    assert DaysBeforeYear(1969) == -365;
  }

  /** Reading the text of any civil time gives its second, with one exception: the
      last second before the epoch, whose number is timegm's failure value. */
  lemma OnlySecondBeforeEpochIsRejected(f: Fields)
    requires Civil(f) && 0 <= f.year < 10000
    ensures ParseUtc(DateText(f)) == if f == LAST_BEFORE_EPOCH then None else Some(TimeGm(f))
    ensures TimeGm(f) == -1 <==> f == LAST_BEFORE_EPOCH
  {
    hide TimeGm, DateText, ScanFields;
    ScanDate(f);
    LastSecondBeforeEpoch();
    if FieldsLess(f, LAST_BEFORE_EPOCH) {
      TimeGmMonotone(f, LAST_BEFORE_EPOCH);
    } else if FieldsLess(LAST_BEFORE_EPOCH, f) {
      TimeGmMonotone(LAST_BEFORE_EPOCH, f);
    } else {
      FieldsTrichotomy(f, LAST_BEFORE_EPOCH);
    }
  }

  lemma FieldsTrichotomy(a: Fields, b: Fields)
    ensures FieldsLess(a, b) || a == b || FieldsLess(b, a)
  {
  }
}
