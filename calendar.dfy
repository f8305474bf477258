/** The proleptic Gregorian calendar in one time zone, at the granularity of
    whole days, with the date-fns operations the recurrence calculator calls:
    addDays, addMonths, addYears, setDate and getDay.

    A date is a day number (`Day`): the count of days since 1970-01-01, which
    was a Thursday. Its civil view is a (year, month, day-of-month) triple. */
module Calendar {

  type Day = int

  datatype Civil = Civil(year: int, month: int, day: int)

  predicate IsLeapYear(y: int) {
    y % 4 == 0 && (y % 100 != 0 || y % 400 == 0)
  }

  function DaysInYear(y: int): int {
    if IsLeapYear(y) then 366 else 365
  }

  function DaysInMonth(y: int, m: int): int
    requires 1 <= m <= 12
  {
    if m == 2 then (if IsLeapYear(y) then 29 else 28)
    else if m == 4 || m == 6 || m == 9 || m == 11 then 30
    else 31
  }

  /** Days of year `y` that come before the first of month `m`. */
  function DaysBeforeMonth(y: int, m: int): int
    requires 1 <= m <= 12
  {
    var common :=
      if m == 1 then 0 else if m == 2 then 31 else if m == 3 then 59
      else if m == 4 then 90 else if m == 5 then 120 else if m == 6 then 151
      else if m == 7 then 181 else if m == 8 then 212 else if m == 9 then 243
      else if m == 10 then 273 else if m == 11 then 304 else 334;
    if m > 2 && IsLeapYear(y) then common + 1 else common
  }

  predicate IsValid(c: Civil) {
    1 <= c.month <= 12 && 1 <= c.day <= DaysInMonth(c.year, c.month)
  }

  /** Leap years among the years before `y`, counted from a fixed origin by
      floor division (Dafny's `/` by a positive constant is floor division,
      so this also holds for years before the origin). */
  function LeapYearsBefore(y: int): int {
    (y - 1) / 4 - (y - 1) / 100 + (y - 1) / 400
  }

  /** Day number of the first of January of year `y`. */
  function YearStart(y: int): Day {
    365 * (y - 1970) + LeapYearsBefore(y) - LeapYearsBefore(1970)
  }

  /** Day number of a valid civil date. */
  function FromCivil(c: Civil): Day
    requires IsValid(c)
  {
    YearStart(c.year) + DaysBeforeMonth(c.year, c.month) + c.day - 1
  }

  lemma YearStartStep(y: int)
    ensures YearStart(y + 1) == YearStart(y) + DaysInYear(y)
  {
    assert y / 4 - (y - 1) / 4 == if y % 4 == 0 then 1 else 0;
    assert y / 100 - (y - 1) / 100 == if y % 100 == 0 then 1 else 0;
    assert y / 400 - (y - 1) / 400 == if y % 400 == 0 then 1 else 0;
    assert y % 100 == 0 ==> y % 4 == 0;
    assert y % 400 == 0 ==> y % 100 == 0;
  }

  /** Later years start at least 365 days per year later. */
  lemma {:induction false} YearStartMonotone(a: int, b: int)
    requires a <= b
    ensures YearStart(a) + 365 * (b - a) <= YearStart(b)
    decreases b - a
  {
    if a < b {
      YearStartStep(a);
      YearStartMonotone(a + 1, b);
    }
  }

  /** The year holding day `n`, searched for from year `y`. */
  function YearContaining(n: Day, y: int): (r: int)
    ensures YearStart(r) <= n < YearStart(r + 1)
    decreases if n < YearStart(y) then YearStart(y) - n + 366 else n - YearStart(y)
  {
    YearStartStep(y - 1);
    YearStartStep(y);
    YearStartStep(y + 1);
    if n < YearStart(y) then YearContaining(n, y - 1)
    else if n >= YearStart(y + 1) then YearContaining(n, y + 1)
    else y
  }

  /** Each day lies in exactly one year. */
  lemma YearUnique(n: Day, r: int, s: int)
    requires YearStart(r) <= n < YearStart(r + 1)
    requires YearStart(s) <= n < YearStart(s + 1)
    ensures r == s
  {
    if r < s {
      YearStartMonotone(r + 1, s);
    } else if s < r {
      YearStartMonotone(s + 1, r);
    }
  }

  /** The month of year `y` holding day-of-year `doy` (counted from 0). */
  function MonthContaining(y: int, doy: int): (m: int)
    requires 0 <= doy < DaysInYear(y)
    ensures 1 <= m <= 12
    ensures DaysBeforeMonth(y, m) <= doy < DaysBeforeMonth(y, m) + DaysInMonth(y, m)
  {
    if doy < DaysBeforeMonth(y, 2) then 1
    else if doy < DaysBeforeMonth(y, 3) then 2
    else if doy < DaysBeforeMonth(y, 4) then 3
    else if doy < DaysBeforeMonth(y, 5) then 4
    else if doy < DaysBeforeMonth(y, 6) then 5
    else if doy < DaysBeforeMonth(y, 7) then 6
    else if doy < DaysBeforeMonth(y, 8) then 7
    else if doy < DaysBeforeMonth(y, 9) then 8
    else if doy < DaysBeforeMonth(y, 10) then 9
    else if doy < DaysBeforeMonth(y, 11) then 10
    else if doy < DaysBeforeMonth(y, 12) then 11
    else 12
  }

  /** Each day of a year lies in exactly one month. */
  lemma MonthUnique(y: int, doy: int, m: int)
    requires 1 <= m <= 12
    requires DaysBeforeMonth(y, m) <= doy < DaysBeforeMonth(y, m) + DaysInMonth(y, m)
    ensures 0 <= doy < DaysInYear(y) && MonthContaining(y, doy) == m
  {
  }

  /** The civil date of day `n`; it is valid and converts back to `n`. */
  function ToCivil(n: Day): (c: Civil)
    ensures IsValid(c) && FromCivil(c) == n
  {
    var y := YearContaining(n, 1970);
    YearStartStep(y);
    var doy := n - YearStart(y);
    var m := MonthContaining(y, doy);
    Civil(y, m, doy - DaysBeforeMonth(y, m) + 1)
  }

  /** Conversion the other way: a valid civil date is recovered from its day number. */
  lemma ToCivilOfFromCivil(c: Civil)
    requires IsValid(c)
    ensures ToCivil(FromCivil(c)) == c
  {
    var n := FromCivil(c);
    YearStartStep(c.year);
    var y := YearContaining(n, 1970);
    YearUnique(n, y, c.year);
    MonthUnique(c.year, n - YearStart(c.year), c.month);
  }

  /** Days of the week as getDay numbers them: 0 is Sunday, 6 is Saturday. */
  function Weekday(n: Day): (w: int)
    ensures 0 <= w < 7
  {
    (n + 4) % 7
  }

  /** Moving `k` days on moves the weekday `k` places round the week. */
  lemma WeekdayAfter(n: Day, k: int)
    ensures Weekday(n + k) == (Weekday(n) + k) % 7
  {
    var q := (n + 4) / 7;
    assert n + 4 == 7 * q + Weekday(n);
    assert n + k + 4 == 7 * q + (Weekday(n) + k);
  }

  /** Whole weeks keep the weekday. */
  lemma WeekdayAfterWeeks(n: Day, j: int)
    ensures Weekday(n + 7 * j) == Weekday(n)
  {
    WeekdayAfter(n, 7 * j);
  }

  /** Absolute index of the month holding day `n`: 12 * year + month - 1. */
  function MonthIndex(n: Day): int {
    var c := ToCivil(n);
    12 * c.year + c.month - 1
  }

  /** Number of days in the month with absolute index `t`. */
  function MonthLength(t: int): (len: int)
    ensures 28 <= len <= 31
  {
    DaysInMonth(t / 12, t % 12 + 1)
  }

  /** Day number of the first day of the month with absolute index `t`. */
  function MonthStart(t: int): Day {
    FromCivil(Civil(t / 12, t % 12 + 1, 1))
  }

  lemma MonthStartStep(t: int)
    ensures MonthStart(t + 1) == MonthStart(t) + MonthLength(t)
  {
    var y, m := t / 12, t % 12 + 1;
    if m < 12 {
      assert (t + 1) / 12 == y && (t + 1) % 12 + 1 == m + 1;
      DaysBeforeNextMonth(y, m);
    } else {
      assert (t + 1) / 12 == y + 1 && (t + 1) % 12 + 1 == 1;
      YearStartStep(y);
    }
  }

  /** Month `m + 1` starts when month `m` ends. */
  lemma DaysBeforeNextMonth(y: int, m: int)
    requires 1 <= m < 12
    ensures DaysBeforeMonth(y, m + 1) == DaysBeforeMonth(y, m) + DaysInMonth(y, m)
  {
  }

  /** Later months start later. */
  lemma {:induction false} MonthStartMonotone(s: int, t: int)
    requires s < t
    ensures MonthStart(s + 1) <= MonthStart(t)
    decreases t - s
  {
    if s + 1 < t {
      MonthStartMonotone(s + 1, t);
      MonthStartStep(s + 1);
    }
  }

  /** Day `n` lies inside the month `MonthIndex(n)`. */
  lemma MonthBounds(n: Day)
    ensures MonthStart(MonthIndex(n)) <= n < MonthStart(MonthIndex(n) + 1)
    ensures n - MonthStart(MonthIndex(n)) == ToCivil(n).day - 1
  {
    var t := MonthIndex(n);
    assert t / 12 == ToCivil(n).year && t % 12 + 1 == ToCivil(n).month;
    MonthStartStep(t);
  }

  /** The k-th day (from 0) after the start of month `t` has month index `t`
      and day-of-month k + 1. */
  lemma DayInMonth(t: int, k: int)
    requires 0 <= k < MonthLength(t)
    ensures MonthIndex(MonthStart(t) + k) == t
    ensures ToCivil(MonthStart(t) + k).day == k + 1
  {
    var c := Civil(t / 12, t % 12 + 1, k + 1);
    assert FromCivil(c) == MonthStart(t) + k;
    ToCivilOfFromCivil(c);
  }

  /** The day `d - 1` days after the start of month `t` is day `d` of that month. */
  lemma DayOfMonth(t: int, n: Day, d: int)
    requires 1 <= d <= MonthLength(t) && n - MonthStart(t) == d - 1
    ensures MonthIndex(n) == t && ToCivil(n).day == d
  {
    DayInMonth(t, d - 1);
  }

  /** Days in a month with a smaller index come first. */
  lemma MonthIndexOrder(a: Day, b: Day)
    requires MonthIndex(a) < MonthIndex(b)
    ensures a < b
  {
    MonthBounds(a);
    MonthBounds(b);
    MonthStartMonotone(MonthIndex(a), MonthIndex(b));
  }

  function Min(a: int, b: int): int {
    if a <= b then a else b
  }

  /** date-fns `addDays`. */
  function AddDays(n: Day, k: int): (r: Day)
    ensures r - n == k
  {
    n + k
  }

  /** date-fns `addMonths`: move k months along, keeping the day of the month
      but clamping it to the length of the target month (Jan 31 + 1 month is
      the last day of February). */
  function AddMonths(n: Day, k: int): (r: Day)
    ensures MonthIndex(r) == MonthIndex(n) + k
    ensures ToCivil(r).day == Min(ToCivil(n).day, MonthLength(MonthIndex(n) + k))
  {
    var t := MonthIndex(n) + k;
    ClampedDayInMonth(n, k, MonthStart(t) + (Min(ToCivil(n).day, MonthLength(t)) - 1));
    MonthStart(t) + (Min(ToCivil(n).day, MonthLength(t)) - 1)
  }

  /** Day `ToCivil(n).day` of the month `k` months after `n`'s, or that
      month's last day when it is shorter. */
  lemma ClampedDayInMonth(n: Day, k: int, r: Day)
    requires r == MonthStart(MonthIndex(n) + k) + (Min(ToCivil(n).day, MonthLength(MonthIndex(n) + k)) - 1)
    ensures MonthIndex(r) == MonthIndex(n) + k
    ensures ToCivil(r).day == Min(ToCivil(n).day, MonthLength(MonthIndex(n) + k))
  {
    var t := MonthIndex(n) + k;
    DayOfMonth(t, r, Min(ToCivil(n).day, MonthLength(t)));
  }

  /** date-fns `addYears`, which is `addMonths` by twelve times as many months. */
  function AddYears(n: Day, k: int): (r: Day)
    ensures ToCivil(r).year == ToCivil(n).year + k
    ensures ToCivil(r).month == ToCivil(n).month
    ensures ToCivil(r).day == Min(ToCivil(n).day, MonthLength(MonthIndex(n) + 12 * k))
  {
    AddMonths(n, 12 * k)
  }

  /** date-fns `setDate`, i.e. JavaScript's `Date.prototype.setDate`: the day
      of the month becomes `d`; a `d` outside the month rolls over into the
      neighbouring months (day 0 is the last day of the previous month,
      day 32 of a 31-day month is the 1st of the next). */
  function SetDate(n: Day, d: int): (r: Day)
    ensures r - n == d - ToCivil(n).day
  {
    MonthBounds(n);
    MonthStart(MonthIndex(n)) + d - 1
  }

  /** `setDate` with a day that exists in the month stays in the month. */
  lemma SetDateInMonth(n: Day, d: int)
    requires 1 <= d <= MonthLength(MonthIndex(n))
    ensures MonthIndex(SetDate(n, d)) == MonthIndex(n)
    ensures ToCivil(SetDate(n, d)).day == d
  {
    MonthBounds(n);
    DayInMonth(MonthIndex(n), d - 1);
  }
}
