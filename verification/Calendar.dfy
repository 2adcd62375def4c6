/** UTC hours as (year, month, day, hour) fields, counted from the zero time of Go. */
module Calendar {
  import opened GoTypes

  datatype UtcHour = UtcHour(year: nat, month: nat, day: nat, hour: nat)

  predicate Leap(year: nat) {
    year % 4 == 0 && (year % 100 != 0 || year % 400 == 0)
  }

  function DaysIn(year: nat, month: nat): nat {
    if month == 2 then (if Leap(year) then 29 else 28)
    else if month in {4, 6, 9, 11} then 30 else 31
  }

  function NextHour(h: UtcHour): UtcHour {
    if h.hour < 23 then h.(hour := h.hour + 1)
    else if h.day < DaysIn(h.year, h.month) then UtcHour(h.year, h.month, h.day + 1, 0)
    else if h.month < 12 then UtcHour(h.year, h.month + 1, 1, 0)
    else UtcHour(h.year + 1, 1, 1, 0)
  }

  /** The n-th hour after midnight of 1 January of year 1. */
  function Civil(n: nat): UtcHour {
    if n == 0 then UtcHour(1, 1, 1, 0) else NextHour(Civil(n - 1))
  }

  predicate Valid(h: UtcHour) {
    1 <= h.month <= 12 && 1 <= h.day <= DaysIn(h.year, h.month) && h.hour < 24
  }

  /** Field order: later hours compare greater, field by field. */
  function Rank(h: UtcHour): nat {
    ((h.year * 100 + h.month) * 100 + h.day) * 100 + h.hour
  }

  lemma {:induction false} CivilIsValid(n: nat)
    ensures Valid(Civil(n))
  {
    if n > 0 {
      CivilIsValid(n - 1);
    }
  }

  lemma {:induction false} CivilIncreases(m: nat, n: nat)
    requires m < n
    ensures Rank(Civil(m)) < Rank(Civil(n))
    decreases n
  {
    CivilIsValid(n - 1);
    assert Rank(Civil(n - 1)) < Rank(NextHour(Civil(n - 1)));
    if m < n - 1 {
      CivilIncreases(m, n - 1);
    }
  }

  /** No two hours share their fields. */
  lemma CivilInjective(m: nat, n: nat)
    requires Civil(m) == Civil(n)
    ensures m == n
  {
    if m < n {
      CivilIncreases(m, n);
    } else if n < m {
      CivilIncreases(n, m);
    }
  }

  // ---- The Gregorian calendar, without counting hour by hour ----

  /** Days of the year before a month. */
  function DaysBefore(year: nat, month: nat): nat {
    var leap := if year % 400 == 0 || (year % 4 == 0 && year % 100 != 0) then 1 else 0;
    match month
    case 1 => 0
    case 2 => 31
    case 3 => 59 + leap
    case 4 => 90 + leap
    case 5 => 120 + leap
    case 6 => 151 + leap
    case 7 => 181 + leap
    case 8 => 212 + leap
    case 9 => 243 + leap
    case 10 => 273 + leap
    case 11 => 304 + leap
    case _ => 334 + leap
  }

  /** Hours since midnight of 1 January of year 1. */
  function HourNumber(h: UtcHour): int {
    var y := h.year - 1;
    (365 * y + y / 4 - y / 100 + y / 400 + DaysBefore(h.year, h.month) + h.day - 1) * 24 + h.hour
  }

  lemma NextHourNumber(h: UtcHour)
    requires Valid(h) && h.year >= 1
    ensures HourNumber(NextHour(h)) == HourNumber(h) + 1
  {
    if h.hour == 23 && h.day == DaysIn(h.year, h.month) {
      if h.month == 12 {
        NextYear(h.year);
      } else {
        NextMonth(h.year, h.month);
      }
    }
  }

  lemma NextMonth(year: nat, month: nat)
    requires 1 <= month < 12
    ensures DaysBefore(year, month + 1) == DaysBefore(year, month) + DaysIn(year, month)
  {}

  lemma NextYear(year: nat)
    requires year >= 1
    ensures var y := year - 1;
            365 * year + year / 4 - year / 100 + year / 400 ==
            365 * y + y / 4 - y / 100 + y / 400 + DaysBefore(year, 12) + 31
  {
    var y := year - 1;
    assert year / 4 - y / 4 == if year % 4 == 0 then 1 else 0;
    assert year / 100 - y / 100 == if year % 100 == 0 then 1 else 0;
    assert year / 400 - y / 400 == if year % 400 == 0 then 1 else 0;
  }

  /** Counting hours gives the date of the Gregorian calendar. */
  lemma {:induction false} CivilIsGregorian(n: nat)
    ensures HourNumber(Civil(n)) == n && Civil(n).year >= 1
  {
    hide HourNumber;
    if n == 0 {
      FirstHour();
    } else {
      CivilIsGregorian(n - 1);
      CivilIsValid(n - 1);
      NextHourNumber(Civil(n - 1));
    }
  }

  lemma FirstHour()
    ensures HourNumber(UtcHour(1, 1, 1, 0)) == 0
  {}

  /** Every date is the one its hour is counted to. */
  lemma GregorianIsCivil(h: UtcHour)
    requires Valid(h) && h.year >= 1 && HourNumber(h) >= 0
    ensures Civil(HourNumber(h)) == h
  {
    var c := Civil(HourNumber(h));
    CivilIsGregorian(HourNumber(h));
    CivilIsValid(HourNumber(h));
    EarlierDate(h, c);
    EarlierDate(c, h);
  }

  /** A date with an earlier year, month, day or hour has a smaller number. */
  lemma EarlierDate(a: UtcHour, b: UtcHour)
    requires Valid(a) && Valid(b) && a.year >= 1 && b.year >= 1
    ensures a.year < b.year || (a.year == b.year && (a.month < b.month || (a.month == b.month && (a.day < b.day || (a.day == b.day && a.hour < b.hour)))))
            ==> HourNumber(a) < HourNumber(b)
  {
    YearNumber(a);
    YearNumber(b);
    if a.year < b.year {
      LaterYear(a.year, b.year);
    } else if a.year == b.year && a.month < b.month {
      LaterMonth(a.year, a.month, b.month);
    }
  }

  /** Hours before a year. */
  function YearStart(year: nat): int {
    var y := year - 1;
    (365 * y + y / 4 - y / 100 + y / 400) * 24
  }

  lemma YearNumber(h: UtcHour)
    requires Valid(h) && h.year >= 1
    ensures YearStart(h.year) <= HourNumber(h) < YearStart(h.year + 1)
    ensures HourNumber(h) == YearStart(h.year) + (DaysBefore(h.year, h.month) + h.day - 1) * 24 + h.hour
  {
    NextYear(h.year);
  }

  lemma {:induction false} LaterYear(a: nat, b: nat)
    requires 1 <= a < b
    ensures YearStart(a + 1) <= YearStart(b)
    decreases b
  {
    if a + 1 < b {
      LaterYear(a, b - 1);
      NextYear(b - 1);
    }
  }

  lemma {:induction false} LaterMonth(year: nat, a: nat, b: nat)
    requires 1 <= a < b <= 12
    ensures DaysBefore(year, a) + DaysIn(year, a) <= DaysBefore(year, b)
    decreases b
  {
    NextMonth(year, b - 1);
    if a < b - 1 {
      LaterMonth(year, a, b - 1);
    }
  }

  /** The Unix epoch is midnight of 1 January 1970. */
  lemma EpochIsIn1970()
    ensures Civil(HourOf(0)) == UtcHour(1970, 1, 1, 0)
  {
    var h := UtcHour(1970, 1, 1, 0);
    assert HourNumber(h) == HourOf(0);
    GregorianIsCivil(h);
  }

  /** The hour a point in time lies in. */
  function HourOf(t: Time): nat
    requires t >= ZERO_TIME
  {
    (t - ZERO_TIME) / HOUR
  }

  function StartOf(hour: nat): Time {
    ZERO_TIME + hour * HOUR
  }

  lemma HourOfBounds(t: Time)
    requires t >= ZERO_TIME
    ensures StartOf(HourOf(t)) <= t < StartOf(HourOf(t) + 1)
    ensures Truncate(t, HOUR) == StartOf(HourOf(t))
  {
    assert ZERO_TIME % HOUR == 0;
  }

  lemma HourOfUnique(t: Time, h: nat)
    requires StartOf(h) <= t < StartOf(h + 1)
    ensures t >= ZERO_TIME && HourOf(t) == h
  {
    HourOfBounds(t);
    var k := HourOf(t);
    assert k < h + 1 && h < k + 1;
  }

  /** The hours of one day share its date. */
  lemma {:induction false} HoursOfDay(day: nat, hour: nat)
    requires hour < 24
    ensures Civil(24 * day + hour) == Civil(24 * day).(hour := hour)
    decreases day, hour
  {
    if hour > 0 {
      HoursOfDay(day, hour - 1);
    } else if day > 0 {
      HoursOfDay(day - 1, 23);
    }
  }

  /** No two days share their date. */
  lemma DateInjective(a: nat, b: nat)
    requires Civil(24 * a).year == Civil(24 * b).year && Civil(24 * a).month == Civil(24 * b).month
    requires Civil(24 * a).day == Civil(24 * b).day
    ensures a == b
  {
    HoursOfDay(a, 0);
    HoursOfDay(b, 0);
    CivilInjective(24 * a, 24 * b);
  }

  /** The day a point in time lies in. */
  function DayOf(t: Time): nat
    requires t >= ZERO_TIME
  {
    HourOf(t) / 24
  }

  lemma DayOfBounds(t: Time)
    requires t >= ZERO_TIME
    ensures Truncate(t, DAY) == StartOf(24 * DayOf(t)) <= t < StartOf(24 * DayOf(t)) + DAY
    ensures Civil(HourOf(t)) == Civil(24 * DayOf(t)).(hour := HourOf(t) % 24)
  {
    hide Civil;
    var h, d: int, s := HourOf(t), DayOf(t), HourOf(t) % 24;
    HoursOfDay(d, s);
    HourOfBounds(t);
    assert h == 24 * d + s;
    var rest := t - StartOf(24 * d);
    assert 0 <= rest < DAY && t == DAY * (d - 719162) + rest;
    RemainderOf(t, DAY, d - 719162, rest);
  }

  lemma RemainderOf(n: int, unit: int, q: int, rest: int)
    requires n == unit * q + rest && 0 <= rest < unit
    ensures n % unit == rest
  {
    var p := n / unit;
    assert n == unit * p + n % unit;
    NoMultipleBetween(unit, q - p, n % unit - rest);
  }

  lemma NoMultipleBetween(unit: int, k: int, difference: int)
    requires difference == unit * k && -unit < difference < unit
    ensures difference == 0
  {
    if k >= 1 {
      assert unit * k == unit + unit * (k - 1);
    } else if k <= -1 {
      assert unit * k == unit * (k + 1) - unit;
    }
  }
}
