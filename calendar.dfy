/** UTC instants as Python's aware `datetime` holds them: a day number
    counted from 1970-01-01 plus hour, minute, second and microsecond, within
    Python's range of years 1 to 9999. Civil (proleptic Gregorian) dates,
    weekdays and the `strftime` fields the harvesters print. */
module Calendar {
  import opened Py
  import Decimal

  const MicrosPerSecond: int := 1000000
  const MicrosPerDay: int := 86400000000
  /** 0001-01-01 (`datetime.min`) and 9999-12-31 (`datetime.max`) as day numbers. */
  const MinDay: int := -719162
  const MaxDay: int := 2932896

  type Day = d: int | MinDay <= d <= MaxDay
  type Hour = h: int | 0 <= h < 24
  type Minute = m: int | 0 <= m < 60
  type Second = s: int | 0 <= s < 60
  type Micro = u: int | 0 <= u < 1000000

  datatype Instant = Instant(days: Day, hour: Hour, minute: Minute, second: Second, micro: Micro)

  /** Microseconds since midnight. */
  function MicroOfDay(t: Instant): (r: int)
    ensures 0 <= r < MicrosPerDay
  {
    ((t.hour * 60 + t.minute) * 60 + t.second) * MicrosPerSecond + t.micro
  }

  /** Microseconds since the epoch: the UTC timeline on which aware datetimes compare. */
  function Micros(t: Instant): int {
    t.days * MicrosPerDay + MicroOfDay(t)
  }

  /** `a <= b` and `a < b` on aware datetimes. */
  predicate Le(a: Instant, b: Instant) {
    Micros(a) <= Micros(b)
  }

  predicate Lt(a: Instant, b: Instant) {
    Micros(a) < Micros(b)
  }

  /** The inclusive range of instants a report selects: `start <= t <= end`. */
  datatype Window = Window(start: Instant, end: Instant)

  predicate InWindow(t: Instant, w: Window) {
    Le(w.start, t) && Le(t, w.end)
  }

  /** The instant `m` microseconds after the epoch, or None outside Python's
      range (where `datetime` raises OverflowError). */
  function FromMicros(m: int): (r: Option<Instant>)
    ensures r.Some? <==> MinDay * MicrosPerDay <= m < (MaxDay + 1) * MicrosPerDay
    ensures r.Some? ==> Micros(r.value) == m
  {
    var d, rem := m / MicrosPerDay, m % MicrosPerDay;
    if MinDay <= d <= MaxDay then
      var s := rem / MicrosPerSecond;
      Some(Instant(d, s / 3600, (s / 60) % 60, s % 60, rem % MicrosPerSecond))
    else None
  }

  /** Two instants on the same point of the timeline are the same instant. */
  lemma MicrosInjective(a: Instant, b: Instant)
    requires Micros(a) == Micros(b)
    ensures a == b
  {
    var ra, rb := MicroOfDay(a), MicroOfDay(b);
    assert a.days == b.days by {
      assert Micros(a) / MicrosPerDay == a.days;
      assert Micros(b) / MicrosPerDay == b.days;
    }
    assert ra == rb;
    var sa, sb := (a.hour * 60 + a.minute) * 60 + a.second, (b.hour * 60 + b.minute) * 60 + b.second;
    assert a.micro == b.micro && sa == sb by {
      assert ra / MicrosPerSecond == sa && ra % MicrosPerSecond == a.micro;
      assert rb / MicrosPerSecond == sb && rb % MicrosPerSecond == b.micro;
    }
    assert a.second == b.second && a.hour * 60 + a.minute == b.hour * 60 + b.minute;
    assert a.minute == b.minute;
  }

  lemma FromMicrosOfMicros(t: Instant)
    ensures FromMicros(Micros(t)) == Some(t)
  {
    MicrosInjective(FromMicros(Micros(t)).value, t);
  }

  // ---------------------------------------------------------------------
  // Civil dates

  datatype Date = Date(year: int, month: int, day: int)

  predicate IsLeap(y: int) {
    y % 4 == 0 && (y % 100 != 0 || y % 400 == 0)
  }

  function DaysInYear(y: int): nat {
    if IsLeap(y) then 366 else 365
  }

  function DaysInMonth(y: int, m: int): nat
    requires 1 <= m <= 12
  {
    if m == 2 then (if IsLeap(y) then 29 else 28)
    else if m == 4 || m == 6 || m == 9 || m == 11 then 30
    else 31
  }

  predicate ValidDate(d: Date) {
    1 <= d.month <= 12 && 1 <= d.day <= DaysInMonth(d.year, d.month)
  }

  /** Leap years among the years 1 .. y-1 (Euclidean division is floor
      division for these positive divisors, so this extends to y <= 0). */
  function LeapsBefore(y: int): int {
    (y - 1) / 4 - (y - 1) / 100 + (y - 1) / 400
  }

  /** Day number of January 1 of year y. */
  function DaysBeforeYear(y: int): int {
    365 * (y - 1970) + LeapsBefore(y) - LeapsBefore(1970)
  }

  /** Days of year y before the first of month m (m = 13: the whole year). */
  function DaysBeforeMonth(y: int, m: int): nat
    requires 1 <= m <= 13
  {
    [0, 31, 59, 90, 120, 151, 181, 212, 243, 273, 304, 334, 365][m - 1] +
    (if m > 2 && IsLeap(y) then 1 else 0)
  }

  lemma DaysBeforeNextYear(y: int)
    ensures DaysBeforeYear(y + 1) == DaysBeforeYear(y) + DaysInYear(y)
  {
    assert y / 4 - (y - 1) / 4 == (if y % 4 == 0 then 1 else 0);
    assert y / 100 - (y - 1) / 100 == (if y % 100 == 0 then 1 else 0);
    assert y / 400 - (y - 1) / 400 == (if y % 400 == 0 then 1 else 0);
  }

  lemma DaysBeforeNextMonth(y: int, m: int)
    requires 1 <= m <= 12
    ensures DaysBeforeMonth(y, m + 1) == DaysBeforeMonth(y, m) + DaysInMonth(y, m)
    ensures DaysBeforeMonth(y, 13) == DaysInYear(y)
  {
  }

  /** January 1 comes strictly later in later years. */
  lemma {:induction false} DaysBeforeYearMonotonic(a: int, b: int)
    requires a < b
    ensures DaysBeforeYear(a) + 365 * (b - a) <= DaysBeforeYear(b)
    decreases b - a
  {
    DaysBeforeNextYear(a);
    if a + 1 < b {
      DaysBeforeYearMonotonic(a + 1, b);
    }
  }

  /** The year whose days contain day number z, searched from year y. */
  function YearFrom(y: int, z: int): (r: int)
    ensures DaysBeforeYear(r) <= z < DaysBeforeYear(r + 1)
    decreases (if z < DaysBeforeYear(y) then DaysBeforeYear(y) - z else 0),
              (if z >= DaysBeforeYear(y) then z - DaysBeforeYear(y) else 0)
  {
    DaysBeforeNextYear(y);
    DaysBeforeNextYear(y - 1);
    if z < DaysBeforeYear(y) then YearFrom(y - 1, z)
    else if z >= DaysBeforeYear(y + 1) then YearFrom(y + 1, z)
    else y
  }

  /** The month of year y holding day-of-year doy, searched from month m. */
  function MonthFrom(y: int, m: int, doy: int): (r: int)
    requires 1 <= m <= 12 && DaysBeforeMonth(y, m) <= doy < DaysInYear(y)
    ensures m <= r <= 12 && DaysBeforeMonth(y, r) <= doy < DaysBeforeMonth(y, r + 1)
    decreases 12 - m
  {
    DaysBeforeNextMonth(y, m);
    if doy < DaysBeforeMonth(y, m + 1) then m else MonthFrom(y, m + 1, doy)
  }

  /** Day number of a civil date (`date.toordinal()` shifted to the epoch). */
  function DaysOf(d: Date): int
    requires 1 <= d.month <= 12
  {
    DaysBeforeYear(d.year) + DaysBeforeMonth(d.year, d.month) + d.day - 1
  }

  /** The civil date of day number z (the `date()` of an instant). */
  function DateOf(z: int): (d: Date)
    ensures ValidDate(d) && DaysOf(d) == z
  {
    var y := YearFrom(1970, z);
    DaysBeforeNextYear(y);
    var doy := z - DaysBeforeYear(y);
    var m := MonthFrom(y, 1, doy);
    DaysBeforeNextMonth(y, m);
    Date(y, m, doy - DaysBeforeMonth(y, m) + 1)
  }

  lemma YearUnique(a: int, b: int, z: int)
    requires DaysBeforeYear(a) <= z < DaysBeforeYear(a + 1)
    requires DaysBeforeYear(b) <= z < DaysBeforeYear(b + 1)
    ensures a == b
  {
    if a < b {
      DaysBeforeYearMonotonic(a + 1, b + 1);
      if a + 1 < b { DaysBeforeYearMonotonic(a + 1, b); }
    } else if b < a {
      DaysBeforeYearMonotonic(b + 1, a + 1);
      if b + 1 < a { DaysBeforeYearMonotonic(b + 1, a); }
    }
  }

  lemma MonthUnique(y: int, a: int, b: int, doy: int)
    requires 1 <= a <= 12 && 1 <= b <= 12
    requires DaysBeforeMonth(y, a) <= doy < DaysBeforeMonth(y, a + 1)
    requires DaysBeforeMonth(y, b) <= doy < DaysBeforeMonth(y, b + 1)
    ensures a == b
  {
  }

  /** DateOf and DaysOf are inverse bijections between day numbers and valid dates. */
  lemma DateOfDaysOf(d: Date)
    requires ValidDate(d)
    ensures DateOf(DaysOf(d)) == d
  {
    var z := DaysOf(d);
    var e := DateOf(z);
    DaysBeforeNextMonth(d.year, d.month);
    DaysBeforeNextMonth(e.year, e.month);
    DaysBeforeNextMonth(d.year, 12);
    DaysBeforeNextMonth(e.year, 12);
    DaysBeforeNextYear(d.year);
    DaysBeforeNextYear(e.year);
    YearUnique(d.year, e.year, z);
    MonthUnique(d.year, d.month, e.month, z - DaysBeforeYear(d.year));
  }

  lemma FirstAndLastYear()
    ensures DaysBeforeYear(1) == MinDay && DaysBeforeYear(10000) == MaxDay + 1
  {
    assert LeapsBefore(1970) == 477;
    assert LeapsBefore(1) == 0;
    assert LeapsBefore(10000) == 2424;
  }

  /** Every representable day falls in the years 1 to 9999. */
  lemma YearInRange(z: Day)
    ensures 1 <= DateOf(z).year <= 9999
  {
    var y := DateOf(z).year;
    FirstAndLastYear();
    if y < 1 { DaysBeforeYearMonotonic(y + 1, 1); }
    if y > 9999 { DaysBeforeYearMonotonic(10000, y); }
  }

  /** `date.weekday()`: Monday is 0 and Sunday 6; day 0, 1970-01-01, was a Thursday. */
  function Weekday(z: int): (w: int)
    ensures 0 <= w < 7
  {
    (z + 3) % 7
  }

  /** The day after has the next weekday. */
  lemma WeekdayStep(z: int)
    ensures Weekday(z + 1) == (Weekday(z) + 1) % 7
  {
    ModSeven(z + 4, (z + 3) % 7 + 1, (z + 3) / 7);
  }

  /** Day 0 is 1970-01-01, a Thursday. */
  lemma EpochIsThursday()
    ensures DaysOf(Date(1970, 1, 1)) == 0 && Weekday(0) == 3
  {
    assert LeapsBefore(1970) == 477;
  }

  /** Sakamoto's month offsets. */
  function SakamotoOffset(m: int): int
    requires 1 <= m <= 12
  {
    [0, 3, 2, 5, 0, 3, 5, 1, 4, 6, 2, 4][m - 1]
  }

  /** Sakamoto's day-of-week formula on a civil date, Sunday 0 to Saturday 6:
      a reference independent of the day numbering. */
  function SakamotoWeekday(d: Date): (w: int)
    requires 1 <= d.month <= 12
    ensures 0 <= w < 7
  {
    var y := if d.month < 3 then d.year - 1 else d.year;
    (y + y / 4 - y / 100 + y / 400 + SakamotoOffset(d.month) + d.day) % 7
  }

  lemma ModSeven(a: int, b: int, q: int)
    requires a == b + 7 * q
    ensures a % 7 == b % 7
  {
  }

  /** The days before month m of a common year exceed Sakamoto's offset by a
      multiple of 7, plus one from March on. */
  lemma SakamotoOffsetAgrees(m: int) returns (k: int)
    requires 1 <= m <= 12
    ensures DaysBeforeMonth(1970, m) - SakamotoOffset(m) == 7 * k + (if m < 3 then 0 else 1)
  {
    k := (DaysBeforeMonth(1970, m) - SakamotoOffset(m)) / 7;
  }

  /** `weekday()` of every valid date is Sakamoto's weekday moved to a
      Monday start, so `Weekday` numbers Monday 0 through Sunday 6. */
  lemma WeekdayOfDate(d: Date)
    requires ValidDate(d)
    ensures Weekday(DaysOf(d)) == (SakamotoWeekday(d) + 6) % 7
  {
    var y, m := d.year, d.month;
    var yy := if m < 3 then y - 1 else y;
    var leaps := LeapsBefore(yy + 1);
    assert yy / 4 - yy / 100 + yy / 400 == leaps;
    DaysBeforeNextYear(y);
    var c := DaysBeforeMonth(1970, m);
    assert LeapsBefore(y) + DaysBeforeMonth(y, m) == leaps + c;
    var k := SakamotoOffsetAgrees(m);
    var inner := yy + leaps + SakamotoOffset(m) + d.day;
    assert DaysOf(d) + 3 == 365 * (y - 1970) + leaps + c + d.day - 475;
    assert DaysOf(d) + 3 == inner + 6 + 7 * (52 * (y - 1970) - 350 + k);
    ModSeven(DaysOf(d) + 3, inner + 6, 52 * (y - 1970) - 350 + k);
    ModSeven(inner + 6, inner % 7 + 6, inner / 7);
  }

  // ---------------------------------------------------------------------
  // strftime fields

  /** The fields of a representable day's date fit `strftime`'s widths. */
  lemma DateFieldsInRange(z: Day)
    ensures var d := DateOf(z);
      1 <= d.year <= 9999 && 1 <= d.month <= 12 && 1 <= d.day <= 31
  {
    YearInRange(z);
  }

  /** A two-digit `strftime` field such as `%d`, `%m` or `%y`. */
  function TwoDigits(n: int): (s: string)
    requires 0 <= n < 100
    ensures |s| == 2 && Decimal.AllDigits(s) && Decimal.Value(s) == n
  {
    Decimal.Pow10Small();
    Decimal.ValuePadded(n, 2);
    Decimal.Padded(n, 2)
  }

  /** The four-digit `%Y` field. */
  function FourDigits(n: int): (s: string)
    requires 0 <= n < 10000
    ensures |s| == 4 && Decimal.AllDigits(s) && Decimal.Value(s) == n
  {
    Decimal.Pow10Small();
    Decimal.ValuePadded(n, 4);
    Decimal.Padded(n, 4)
  }

  /** The fields of `%Y%m%d`, or of `%y%m%d` when w is 2. */
  lemma SplitFields(a: string, b: string, c: string, w: nat)
    requires |a| == w && |b| == 2 && |c| == 2
    ensures var s := a + b + c;
      |s| == w + 4 && s[..w] == a && s[w..w + 2] == b && s[w + 2..] == c
  {
  }

  lemma SplitSlashed(a: string, b: string, c: string)
    requires |a| == 2 && |b| == 2
    ensures var s := a + "/" + b + "/" + c;
      |s| == 6 + |c| && s[..2] == a && s[2] == '/' && s[3..5] == b && s[5] == '/' && s[6..] == c
  {
  }

  /** `t.strftime('%d/%m/%Y')`: each field reads back as the date's. */
  function FormatDayMonthYear(t: Instant): (s: string)
    ensures |s| == 10 && s[2] == '/' && s[5] == '/'
    ensures Decimal.AllDigits(s[..2]) && Decimal.AllDigits(s[3..5]) && Decimal.AllDigits(s[6..])
    ensures var d := DateOf(t.days);
      Decimal.Value(s[..2]) == d.day && Decimal.Value(s[3..5]) == d.month &&
      Decimal.Value(s[6..]) == d.year
  {
    var d := DateOf(t.days);
    YearInRange(t.days);
    var dd, mm, yyyy := TwoDigits(d.day), TwoDigits(d.month), FourDigits(d.year);
    SplitSlashed(dd, mm, yyyy);
    dd + "/" + mm + "/" + yyyy
  }

  /** `%Y%m%d` of a date with a four-digit year. */
  function YearMonthDayText(d: Date): (s: string)
    requires 1 <= d.year <= 9999 && 1 <= d.month <= 12 && 1 <= d.day <= 31
    ensures |s| == 8
    ensures Decimal.AllDigits(s[..4]) && Decimal.AllDigits(s[4..6]) && Decimal.AllDigits(s[6..])
    ensures Decimal.Value(s[..4]) == d.year && Decimal.Value(s[4..6]) == d.month &&
      Decimal.Value(s[6..]) == d.day
  {
    var yyyy, mm, dd := FourDigits(d.year), TwoDigits(d.month), TwoDigits(d.day);
    SplitFields(yyyy, mm, dd, 4);
    yyyy + mm + dd
  }

  /** `t.strftime('%Y%m%d')` */
  function FormatYearMonthDay(t: Instant): (s: string)
    ensures |s| == 8
    ensures Decimal.AllDigits(s[..4]) && Decimal.AllDigits(s[4..6]) && Decimal.AllDigits(s[6..])
    ensures var d := DateOf(t.days);
      Decimal.Value(s[..4]) == d.year && Decimal.Value(s[4..6]) == d.month &&
      Decimal.Value(s[6..]) == d.day
  {
    DateFieldsInRange(t.days);
    YearMonthDayText(DateOf(t.days))
  }

  /** `t.strftime('%y%m%d')`: the year within its century, two digits. */
  function FormatShortYearMonthDay(t: Instant): (s: string)
    ensures |s| == 6
    ensures Decimal.AllDigits(s[..2]) && Decimal.AllDigits(s[2..4]) && Decimal.AllDigits(s[4..])
    ensures var d := DateOf(t.days);
      Decimal.Value(s[..2]) == d.year % 100 && Decimal.Value(s[2..4]) == d.month &&
      Decimal.Value(s[4..]) == d.day
  {
    var d := DateOf(t.days);
    var yy, mm, dd := TwoDigits(d.year % 100), TwoDigits(d.month), TwoDigits(d.day);
    SplitFields(yy, mm, dd, 2);
    yy + mm + dd
  }
}
