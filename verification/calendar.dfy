/**
 Calendar conversions (vendor_timers.c): unix2UTC with its year loop and month bisection,
 and UTC2unix, against the Gregorian calendar and the formula of section 4.16 of
 POSIX.1-2017 (Base Definitions).
 */
module Calendar {

  const DAY: nat := 86400
  const UINT32: nat := 0x1_0000_0000

  /** Month counts from 0, day from 1. */
  datatype Utc = Utc(year: nat, month: nat, day: nat, weekday: nat, hour: nat, minutes: nat, seconds: nat)

  // ----- The Gregorian calendar -----

  /** is_leap_year. */
  predicate IsLeap(y: nat) {
    if y % 4 == 0 && y % 100 != 0 then true else y % 400 == 0
  }

  function YearDays(y: nat): nat {
    if IsLeap(y) then 366 else 365
  }

  /** Days from 1970-01-01 to the first day of a year. */
  function DaysBeforeYear(y: nat): nat
    requires y >= 1970
  {
    if y == 1970 then 0 else DaysBeforeYear(y - 1) + YearDays(y - 1)
  }

  /** January is month 0. */
  function MonthLength(y: nat, m: nat): nat
    requires m < 12
  {
    if m in {0, 2, 4, 6, 7, 9, 11} then 31 else if m in {3, 5, 8, 10} then 30 else if IsLeap(y) then 29 else 28
  }

  /** Days of a year in its first m months. */
  function DaysInMonths(y: nat, m: nat): nat
    requires m <= 12
  {
    if m == 0 then 0 else DaysInMonths(y, m - 1) + MonthLength(y, m - 1)
  }

  predicate ValidDate(u: Utc) {
    u.year >= 1970 && u.month < 12 && 1 <= u.day <= MonthLength(u.year, u.month)
  }

  /** The dates there are, with the lengths of the months and the leap rule written out. */
  lemma ValidDateIs(u: Utc)
    ensures ValidDate(u) <==>
      && u.year >= 1970 && u.month <= 11 && 1 <= u.day <= 31
      && (u.month == 3 || u.month == 5 || u.month == 8 || u.month == 10 ==> u.day <= 30)
      && (u.month == 1 ==> u.day <= 29)
      && (u.month == 1 && u.day == 29 ==> u.year % 4 == 0 && (u.year % 100 == 0 ==> u.year % 400 == 0))
  {
    LeapRule(u.year);
  }

  lemma LeapRule(y: nat)
    ensures IsLeap(y) <==> y % 4 == 0 && (y % 100 == 0 ==> y % 400 == 0)
  {
    if y % 400 == 0 {
      assert y == 400 * (y / 400);
      assert y % 4 == 0;
    }
  }

  predicate ValidTime(u: Utc) {
    u.hour < 24 && u.minutes < 60 && u.seconds < 60
  }

  /** Days from 1970-01-01 to a date. */
  function DayNumber(u: Utc): int
    requires ValidDate(u)
  {
    DaysBeforeYear(u.year) + DaysInMonths(u.year, u.month) + u.day - 1
  }

  function SecondOfDay(u: Utc): nat {
    (u.hour * 60 + u.minutes) * 60 + u.seconds
  }

  /** The date after a date. */
  function Tomorrow(u: Utc): Utc
    requires ValidDate(u)
  {
    if u.day < MonthLength(u.year, u.month) then u.(day := u.day + 1)
    else if u.month < 11 then u.(month := u.month + 1, day := 1)
    else u.(year := u.year + 1, month := 0, day := 1)
  }

  /** Day numbers count the days from 1970-01-01. */
  lemma DayNumberCounts(u: Utc)
    ensures u.year == 1970 && u.month == 0 && u.day == 1 ==> ValidDate(u) && DayNumber(u) == 0
    ensures ValidDate(u) ==> ValidDate(Tomorrow(u)) && DayNumber(Tomorrow(u)) == DayNumber(u) + 1
  {
    if ValidDate(u) {
      MonthTable(u.year, 12);
    }
  }

  // ----- The table of both conversions -----

  /** The table g_noleap_daysbeforemonth. */
  function NoLeapDays(m: nat): nat
    requires m <= 12
  {
    if m == 0 then 0 else if m == 1 then 31 else if m == 2 then 59 else if m == 3 then 90
    else if m == 4 then 120 else if m == 5 then 151 else if m == 6 then 181 else if m == 7 then 212
    else if m == 8 then 243 else if m == 9 then 273 else if m == 10 then 304 else if m == 11 then 334
    else 365
  }

  /** Days of a year before a month, as the code takes them from the table. */
  function DaysBeforeMonth(y: nat, m: nat): nat
    requires m <= 12
  {
    NoLeapDays(m) + (if m >= 2 && IsLeap(y) then 1 else 0)
  }

  /** The table adds up the lengths of the months. */
  lemma {:induction false} MonthTable(y: nat, m: nat)
    requires m <= 12
    ensures DaysBeforeMonth(y, m) == DaysInMonths(y, m)
    ensures m == 12 ==> DaysInMonths(y, m) == YearDays(y)
  {
    if m > 0 {
      MonthTable(y, m - 1);
    }
  }

  lemma MonthsAscend(y: nat, a: nat, b: nat)
    requires a < b <= 12
    ensures DaysBeforeMonth(y, a) < DaysBeforeMonth(y, b) <= YearDays(y) == DaysBeforeMonth(y, 12)
    ensures DaysInMonths(y, a) < DaysInMonths(y, b) <= YearDays(y) == DaysInMonths(y, 12)
    ensures DaysInMonths(y, a + 1) == DaysInMonths(y, a) + MonthLength(y, a)
  {
    MonthTable(y, a);
    MonthTable(y, b);
    MonthTable(y, 12);
  }

  lemma {:induction false} YearsAscend(a: nat, b: nat)
    requires 1970 <= a < b
    ensures DaysBeforeYear(a) + YearDays(a) <= DaysBeforeYear(b)
    decreases b
  {
    if a < b - 1 {
      YearsAscend(a, b - 1);
    }
  }

  lemma DayInYear(u: Utc)
    requires ValidDate(u)
    ensures DaysBeforeYear(u.year) <= DayNumber(u) < DaysBeforeYear(u.year) + YearDays(u.year)
  {
    MonthsAscend(u.year, u.month, u.month + 1);
    if u.month + 1 < 12 {
      MonthsAscend(u.year, u.month + 1, 12);
    }
  }

  lemma EarlierYear(u: Utc, v: Utc)
    requires ValidDate(u) && ValidDate(v) && u.year < v.year
    ensures DayNumber(u) < DayNumber(v)
  {
    DayInYear(u);
    DayInYear(v);
    YearsAscend(u.year, v.year);
  }

  lemma EarlierMonth(u: Utc, v: Utc)
    requires ValidDate(u) && ValidDate(v) && u.year == v.year && u.month < v.month
    ensures DayNumber(u) < DayNumber(v)
  {
    MonthsAscend(u.year, u.month, v.month);
    if u.month + 1 < v.month {
      MonthsAscend(u.year, u.month + 1, v.month);
    }
  }

  /** A day number belongs to one date only. */
  lemma OneDatePerDay(u: Utc, v: Utc)
    requires ValidDate(u) && ValidDate(v) && DayNumber(u) == DayNumber(v)
    ensures u.year == v.year && u.month == v.month && u.day == v.day
  {
    if u.year < v.year {
      EarlierYear(u, v);
    } else if v.year < u.year {
      EarlierYear(v, u);
    } else if u.month < v.month {
      EarlierMonth(u, v);
    } else if v.month < u.month {
      EarlierMonth(v, u);
    }
  }

  // ----- UTC2unix -----

  /** The days UTC2unix counts: every fourth year is taken for a leap year. */
  function SimpleDays(u: Utc): nat
    requires ValidDate(u)
  {
    (u.year - 1970) * 365 + (u.year - 1969) / 4 + DaysBeforeMonth(u.year, u.month) + u.day - 1
  }

  function Utc2Unix(u: Utc): nat
    requires ValidDate(u)
  {
    (((SimpleDays(u) * 24 + u.hour) * 60 + u.minutes) * 60 + u.seconds) % UINT32
  }

  /** Seconds since the Epoch as POSIX defines them, tm_year counting from 1900. */
  function PosixSeconds(u: Utc): int
    requires ValidDate(u)
  {
    var tmYear := u.year - 1900;
    var tmYday := DaysInMonths(u.year, u.month) + u.day - 1;
    u.seconds + u.minutes * 60 + u.hour * 3600 + tmYday * 86400
    + (tmYear - 70) * 31536000 + ((tmYear - 69) / 4) * 86400
    - ((tmYear - 1) / 100) * 86400 + ((tmYear + 299) / 400) * 86400
  }

  lemma LeapCounts(y: nat)
    requires y >= 1970
    ensures (y - 1968) / 4 - (y - 1969) / 4 == if y % 4 == 0 then 1 else 0
    ensures (y - 1900) / 100 - (y - 1901) / 100 == if y % 100 == 0 then 1 else 0
    ensures (y - 1600) / 400 - (y - 1601) / 400 == if y % 400 == 0 then 1 else 0
    ensures y % 400 == 0 ==> y % 100 == 0
    ensures y % 100 == 0 ==> y % 4 == 0
  {
    FourthYears(y);
    Centuries(y);
    FourthCenturies(y);
  }

  lemma FourthYears(y: nat)
    requires y >= 1970
    ensures (y - 1968) / 4 - (y - 1969) / 4 == if y % 4 == 0 then 1 else 0
  {
    var q, r := y / 4, y % 4;
    By4(y - 1968, q - 492);
    By4(y - 1969, if r == 0 then q - 493 else q - 492);
  }

  lemma By4(y: int, q: int)
    requires 4 * q <= y < 4 * q + 4
    ensures y / 4 == q && (y == 4 * q ==> y % 4 == 0)
  {
  }

  lemma By100(y: int, q: int)
    requires 100 * q <= y < 100 * q + 100
    ensures y / 100 == q && (y == 100 * q ==> y % 100 == 0)
  {
  }

  lemma By400(y: int, q: int)
    requires 400 * q <= y < 400 * q + 400
    ensures y / 400 == q
  {
  }

  lemma Centuries(y: nat)
    requires y >= 1970
    ensures (y - 1900) / 100 - (y - 1901) / 100 == if y % 100 == 0 then 1 else 0
    ensures y % 100 == 0 ==> y % 4 == 0
  {
    var q, r := y / 100, y % 100;
    By100(y - 1900, q - 19);
    By100(y - 1901, if r == 0 then q - 20 else q - 19);
    if r == 0 {
      By4(y, 25 * q);
    }
  }

  lemma FourthCenturies(y: nat)
    requires y >= 1970
    ensures (y - 1600) / 400 - (y - 1601) / 400 == if y % 400 == 0 then 1 else 0
    ensures y % 400 == 0 ==> y % 100 == 0
  {
    var q, r := y / 400, y % 400;
    By400(y - 1600, q - 4);
    By400(y - 1601, if r == 0 then q - 5 else q - 4);
    if r == 0 {
      By100(y, 4 * q);
    }
  }

  lemma {:induction false} DaysBeforeYearIs(y: nat)
    requires y >= 1970
    ensures DaysBeforeYear(y) == (y - 1970) * 365 + (y - 1969) / 4 - (y - 1901) / 100 + (y - 1601) / 400
  {
    if y > 1970 {
      DaysBeforeYearIs(y - 1);
      YearStep(y);
    }
  }

  /** One year more is one leap day more when the year before is a leap year. */
  lemma YearStep(y: nat)
    requires y >= 1971
    ensures (y - 1969) / 4 - (y - 1901) / 100 + (y - 1601) / 400
         == (y - 1970) / 4 - (y - 1902) / 100 + (y - 1602) / 400 + (if IsLeap(y - 1) then 1 else 0)
  {
    LeapCounts(y - 1);
  }

  /** The POSIX formula counts the days of the Gregorian calendar. */
  lemma PosixIsGregorian(u: Utc)
    requires ValidDate(u)
    ensures PosixSeconds(u) == DayNumber(u) * DAY + SecondOfDay(u)
  {
    DaysBeforeYearIs(u.year);
  }

  lemma CenturiesSkipped(y: nat)
    requires y >= 1970
    ensures (y - 1901) / 100 == (y - 1601) / 400 <==> y <= 2100
  {
    var c, q := (y - 1901) / 100, (y - 1601) / 400;
    if y >= 2101 {
      assert 100 * c <= y - 1901 < 100 * c + 100 && 400 * q <= y - 1601;
    }
  }

  /** UTC2unix counts the right days exactly up to the end of 2100. */
  lemma SimpleDaysExact(u: Utc)
    requires ValidDate(u)
    ensures SimpleDays(u) == DayNumber(u) <==> u.year <= 2100
  {
    MonthTable(u.year, u.month);
    DaysBeforeYearIs(u.year);
    CenturiesSkipped(u.year);
  }

  /** Up to the year 2100 the days since 1970 are few enough for 32 bits of seconds. */
  lemma DaysBounded(u: Utc)
    requires ValidDate(u) && u.year <= 2100
    ensures DayNumber(u) <= 131 * 365 + 33
  {
    DaysBeforeYearIs(u.year);
    MonthsAscend(u.year, u.month, u.month + 1);
    MonthsAscend(u.year, u.month, 12);
    if u.month + 1 < 12 {
      MonthsAscend(u.year, u.month + 1, 12);
    }
  }

  /** UTC2unix is the POSIX formula for every valid date and time from 1970 to 2100. */
  lemma AgreesWithPosix(u: Utc)
    requires ValidDate(u) && ValidTime(u) && u.year <= 2100
    ensures Utc2Unix(u) == PosixSeconds(u)
  {
    PosixIsGregorian(u);
    SimpleDaysExact(u);
    DaysBounded(u);
  }

  // ----- unix2UTC -----

  /** First day of a four-year period counted from 1970; the period with 2100 is a day short. */
  lemma {:induction false} PeriodStart(g: nat)
    requires g <= 34
    ensures DaysBeforeYear(1970 + 4 * g) == 1461 * g - (if g >= 33 then 1 else 0)
  {
    DaysBeforeYearIs(1970 + 4 * g);
  }

  /** The day whose date unix2UTC gives: from the 48213th on, the one before. */
  function DayShown(d: nat): nat {
    if d < 48213 then d else d - 1
  }

  method Unix2Utc(t: nat) returns (u: Utc)
    requires t < UINT32
    ensures ValidDate(u) && ValidTime(u)
    // the day it is, up to the 48212th, and from then on the one before
    ensures DayNumber(u) == if t / 86400 < 48213 then t / 86400 else t / 86400 - 1
    ensures u.hour * 3600 + u.minutes * 60 + u.seconds == t % 86400 && u.weekday == (t / 86400 + 4) % 7
    // the round trip, exactly
    ensures Utc2Unix(u) == t <==> t < 4133980800 || t >= 4165603200
  {
    var epoch := t;
    var jdn: nat := epoch / DAY;
    epoch := epoch - DAY * jdn;
    var weekday := (jdn + 4) % 7;
    var hour := epoch / 3600;
    epoch := epoch - 3600 * hour;
    var minutes := epoch / 60;
    var sec := epoch - 60 * minutes;

    ghost var d: nat := jdn;
    var year: nat := jdn / 1461;
    PeriodStart(year);
    jdn := jdn - year * 1461;
    year := year * 4;
    while jdn >= YearDays(year + 1970)
      invariant DaysBeforeYear(1970 + year) + jdn == DayShown(d)
      decreases jdn
    {
      jdn := jdn - YearDays(year + 1970);
      year := year + 1;
    }
    year := year + 1970;

    var month := FindMonth(year, jdn);
    MonthTable(year, month);
    MonthTable(year, month + 1);
    jdn := jdn - DaysBeforeMonth(year, month);
    u := Utc(year, month, jdn + 1, weekday, hour, minutes, sec);
    RoundTripExact(t, u);
  }

  /** The month with the day in it. */
  ghost predicate Contains(year: nat, m: nat, jdn: nat) {
    m < 12 && DaysBeforeMonth(year, m) <= jdn < DaysBeforeMonth(year, m + 1)
  }

  /** The bisection ends on the month that contains the day. */
  method FindMonth(year: nat, jdn: nat) returns (value: nat)
    requires jdn < YearDays(year)
    ensures Contains(year, value, jdn) && forall m: nat :: Contains(year, m, jdn) ==> m == value
  {
    var before := seq(13, m requires 0 <= m < 13 => DaysBeforeMonth(year, m));
    value := Bisect(before, jdn);
    OnlyMonth(year, value, jdn);
  }

  /** The bisection of unix2UTC, on the table of days before each month. */
  method Bisect(before: seq<nat>, jdn: nat) returns (value: nat)
    requires |before| == 13 && before[0] <= jdn < before[12]
    ensures value < 12 && before[value] <= jdn < before[value + 1]
  {
    var min, max := 0, 11;
    value := 0;
    var again := true;
    while again
      invariant 0 <= min <= max <= 11
      invariant before[min] <= jdn < before[max + 1]
      invariant !again ==> value < 12 && before[value] <= jdn < before[value + 1]
      decreases again, max - min
    {
      value := (min + max) / 2;
      if before[value + 1] > jdn {
        if before[value] > jdn {
          max := value - 1;
        } else {
          break;
        }
      } else {
        min := value + 1;
      }
      value := min;
      again := min < max;
    }
  }

  lemma OnlyMonth(year: nat, value: nat, jdn: nat)
    requires Contains(year, value, jdn)
    ensures forall m: nat :: Contains(year, m, jdn) ==> m == value
  {
    forall m: nat | Contains(year, m, jdn) ensures m == value {
      if m < value && m + 1 < value {
        MonthsAscend(year, m + 1, value);
      } else if value < m && value + 1 < m {
        MonthsAscend(year, value + 1, m);
      }
    }
  }

  lemma YearStarts()
    ensures DaysBeforeYear(2101) == 47847 && DaysBeforeYear(2107) > 49710
  {
    DaysBeforeYearIs(2101);
    DaysBeforeYearIs(2107);
  }

  /** The last day of 2100 and of 2106 in day numbers. */
  lemma YearBound(u: Utc)
    requires ValidDate(u)
    ensures u.year <= 2100 <==> DayNumber(u) < 47847
    ensures DayNumber(u) <= 49710 ==> u.year <= 2106
  {
    YearStarts();
    DayInYear(u);
    if u.year < 2101 {
      YearsAscend(u.year, 2101);
    } else if u.year > 2101 {
      YearsAscend(2101, u.year);
    }
    if u.year > 2107 {
      YearsAscend(2107, u.year);
    }
  }

  lemma OneDayAhead(u: Utc)
    requires ValidDate(u) && 2101 <= u.year <= 2106
    ensures SimpleDays(u) == DayNumber(u) + 1
  {
    MonthTable(u.year, u.month);
    DaysBeforeYearIs(u.year);
    By100(u.year - 1901, 2);
    By400(u.year - 1601, 1);
  }

  lemma RoundTripExact(t: nat, u: Utc)
    requires t < UINT32 && ValidDate(u) && ValidTime(u)
    requires DayNumber(u) == DayShown(t / DAY) && SecondOfDay(u) == t % DAY
    ensures Utc2Unix(u) == t <==> t < 4133980800 || t >= 4165603200
  {
    YearBound(u);
    SimpleDaysExact(u);
    if u.year > 2100 {
      OneDayAhead(u);
    }
    SecondsOf(u);
    Compare(t, t / DAY, t % DAY, DayNumber(u), SimpleDays(u));
  }

  lemma SecondsOf(u: Utc)
    requires ValidDate(u)
    ensures Utc2Unix(u) == (SimpleDays(u) * DAY + SecondOfDay(u)) % UINT32
  {
  }

  /** The day shown, and the day counted back, against the day it was. */
  lemma Compare(t: nat, d: nat, rest: nat, shown: int, counted: nat)
    requires t < UINT32 && t == d * DAY + rest && rest < DAY && shown == DayShown(d)
    requires counted == if shown < 47847 then shown else shown + 1
    ensures (counted * DAY + rest) % UINT32 == t <==> t < 4133980800 || t >= 4165603200
  {
    if d < 47847 {
    } else if d < 48213 {
      assert counted == d + 1;
    } else {
      assert counted == d;
    }
  }
}
