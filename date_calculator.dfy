/** The recurrence calculator: from a base date, a frequency label and the
    task's parameter bag (`due_date_logic`) to the next due date. */
module DateCalculator {
  import opened Util
  import opened Text
  import opened Calendar

  /** The `due_date_logic` bag as the task creation form fills it in, one
      optional string per field. `period` and `firstDate` are collected by the
      form but never read by the calculator; `date` is read only when a
      one-time task is created. */
  datatype Params = Params(
    dayOfWeek: Option<string>,
    dateOfMonth: Option<string>,
    occurrence: Option<string>,
    day: Option<string>,
    period: Option<string>,
    firstDate: Option<string>,
    date: Option<string>)

  /** The empty bag `{}`. */
  const NoParams := Params(None, None, None, None, None, None, None)

  /** `toISOString` on an invalid date throws a RangeError. */
  datatype CalcError = InvalidDate

  /** The weekday tables of the Weekly and Specific Day's rules. */
  function WeekdayNumber(name: string): (w: Option<int>)
    ensures w.Some? ==> 0 <= w.value < 7
  {
    if name == "Sunday" then Some(0)
    else if name == "Monday" then Some(1)
    else if name == "Tuesday" then Some(2)
    else if name == "Wednesday" then Some(3)
    else if name == "Thursday" then Some(4)
    else if name == "Friday" then Some(5)
    else if name == "Saturday" then Some(6)
    else None
  }

  /** The occurrence table of the Specific Day's rule; it has no entry for "Last". */
  function OccurrenceNumber(name: string): (k: Option<int>)
    ensures k.Some? ==> 1 <= k.value <= 4
  {
    if name == "1st" then Some(1)
    else if name == "2nd" then Some(2)
    else if name == "3rd" then Some(3)
    else if name == "4th" then Some(4)
    else None
  }

  /** The labels that have a rule of their own. */
  predicate IsRecurringLabel(frequency: string) {
    frequency == "Daily" || frequency == "Weekly" || frequency == "Monthly"
    || frequency == "Quarterly" || frequency == "Half-yearly" || frequency == "Half yearly"
    || frequency == "Yearly" || frequency == "Specific Day's" || frequency == "Specific Days"
  }

  /** Whether the Weekly rule finds its target weekday in the bag. */
  predicate HasTargetWeekday(dayOfWeek: Option<string>) {
    Truthy(dayOfWeek) && WeekdayNumber(dayOfWeek.value).Some?
  }

  /** Weekly: the next day, strictly after the base, that falls on the named
      weekday; without a recognised weekday, one week later. */
  function WeeklyNext(base: Day, dayOfWeek: Option<string>): (r: Day)
    ensures 1 <= r - base <= 7
    ensures HasTargetWeekday(dayOfWeek) ==> Weekday(r) == WeekdayNumber(dayOfWeek.value).value
    ensures !HasTargetWeekday(dayOfWeek) ==> r - base == 7
  {
    if HasTargetWeekday(dayOfWeek) then
      var daysToAdd := WeekdayNumber(dayOfWeek.value).value - Weekday(base);
      var step := if daysToAdd <= 0 then daysToAdd + 7 else daysToAdd;
      WeekdayAfter(base, step);
      AddDays(base, step)
    else
      AddDays(base, 7)
  }

  /** No day strictly between the base and the Weekly result falls on the
      target weekday: the result is the earliest such day after the base. */
  lemma WeeklyNextIsEarliest(base: Day, dayOfWeek: Option<string>)
    requires HasTargetWeekday(dayOfWeek)
    ensures forall d :: base < d < WeeklyNext(base, dayOfWeek) ==>
      Weekday(d) != WeekdayNumber(dayOfWeek.value).value
  {
    var r := WeeklyNext(base, dayOfWeek);
    forall d | base < d < r
      ensures Weekday(d) != WeekdayNumber(dayOfWeek.value).value
    {
      WeekdayAfter(base, d - base);
    }
  }

  /** A base that already falls on the target weekday moves a whole week. */
  lemma WeeklySameWeekday(base: Day, dayOfWeek: Option<string>)
    requires HasTargetWeekday(dayOfWeek)
    requires Weekday(base) == WeekdayNumber(dayOfWeek.value).value
    ensures WeeklyNext(base, dayOfWeek) == base + 7
  {
    var r := WeeklyNext(base, dayOfWeek);
    WeekdayAfter(base, r - base);
  }

  /** Monthly: one calendar month on; a truthy `dateOfMonth` then replaces
      the day of the month with its parsed value, rolling over as
      `setDate` does, and a value with no leading digits fails. */
  function MonthlyNext(base: Day, dateOfMonth: Option<string>): (r: Result<Day, CalcError>)
    ensures r.Failure? <==> Truthy(dateOfMonth) && ParseInt(dateOfMonth.value).None?
    ensures !Truthy(dateOfMonth) ==>
      && MonthIndex(r.value) == MonthIndex(base) + 1
      && ToCivil(r.value).day == Min(ToCivil(base).day, MonthLength(MonthIndex(base) + 1))
    ensures Truthy(dateOfMonth) && r.Success? ==>
      r.value - MonthStart(MonthIndex(base) + 1) == ParseInt(dateOfMonth.value).value - 1
  {
    var next := AddMonths(base, 1);
    if Truthy(dateOfMonth) then
      match ParseInt(dateOfMonth.value)
      case None => Failure(InvalidDate)
      case Some(d) =>
        MonthBounds(next);
        Success(SetDate(next, d))
    else
      Success(next)
  }

  /** A parsed day that exists in the next month is that day of the next month. */
  lemma MonthlyWithDayInRange(base: Day, dateOfMonth: Option<string>)
    requires Truthy(dateOfMonth) && ParseInt(dateOfMonth.value).Some?
    requires 1 <= ParseInt(dateOfMonth.value).value <= MonthLength(MonthIndex(base) + 1)
    ensures MonthIndex(MonthlyNext(base, dateOfMonth).value) == MonthIndex(base) + 1
    ensures ToCivil(MonthlyNext(base, dateOfMonth).value).day == ParseInt(dateOfMonth.value).value
  {
    DayOfMonth(MonthIndex(base) + 1, MonthlyNext(base, dateOfMonth).value, ParseInt(dateOfMonth.value).value);
  }

  /** Whether the Specific Day's rule finds both of its fields. */
  predicate HasOccurrenceAndDay(p: Params) {
    Truthy(p.occurrence) && Truthy(p.day)
  }

  /** Specific Day's: the N-th named weekday of the month after the base
      (an unknown occurrence, "Last" included, counts as the 1st and an
      unknown day name as Sunday); without both fields, the next day. */
  function SpecificDayNext(base: Day, p: Params): (r: Day)
    ensures !HasOccurrenceAndDay(p) ==> r - base == 1
    ensures HasOccurrenceAndDay(p) ==>
      && MonthIndex(r) == MonthIndex(base) + 1
      && Weekday(r) == WeekdayNumber(p.day.value).GetOr(0)
      && 1 <= ToCivil(r).day <= 28
      && (ToCivil(r).day - 1) / 7 == OccurrenceNumber(p.occurrence.value).GetOr(1) - 1
    ensures HasOccurrenceAndDay(p) ==>
      r == NthWeekday(MonthIndex(base) + 1, WeekdayNumber(p.day.value).GetOr(0),
                      OccurrenceNumber(p.occurrence.value).GetOr(1))
  {
    if HasOccurrenceAndDay(p) then
      var weekNum := OccurrenceNumber(p.occurrence.value).GetOr(1);
      var targetDow := WeekdayNumber(p.day.value).GetOr(0);
      var next := AddMonths(base, 1);
      var first := SetDate(next, 1);
      FirstOfNextMonth(base);
      var r := AddDays(first, WeekdayOffset(first, targetDow) + 7 * (weekNum - 1));
      assert r == NthWeekday(MonthIndex(base) + 1, targetDow, weekNum);
      r
    else
      AddDays(base, 1)
  }

  /** Days from `from` to the first day on or after it that falls on weekday `dow`. */
  function WeekdayOffset(from: Day, dow: int): (o: int)
    requires 0 <= dow < 7
    ensures 0 <= o < 7 && Weekday(from + o) == dow
  {
    var dayOffset := dow - Weekday(from);
    var o := if dayOffset < 0 then dayOffset + 7 else dayOffset;
    WeekdayAfter(from, o);
    o
  }

  /** `setDate(addMonths(base, 1), 1)` is the first day of the next month. */
  lemma FirstOfNextMonth(base: Day)
    ensures SetDate(AddMonths(base, 1), 1) == MonthStart(MonthIndex(base) + 1)
  {
    MonthBounds(AddMonths(base, 1));
  }

  /** The `nth` weekday `dow` of month `t`, counted from its first day. */
  function NthWeekday(t: int, dow: int, nth: int): (r: Day)
    requires 0 <= dow < 7 && 1 <= nth <= 4
    ensures MonthIndex(r) == t
    ensures Weekday(r) == dow
    ensures 1 <= ToCivil(r).day <= 28
    ensures (ToCivil(r).day - 1) / 7 == nth - 1
  {
    var start := MonthStart(t);
    var o := WeekdayOffset(start, dow);
    WeekOfMonth(t, dow, nth, start + o + 7 * (nth - 1));
    start + o + 7 * (nth - 1)
  }

  /** The day `nth - 1` weeks after the first weekday `dow` of month `t` is a
      weekday `dow` of its `nth` week. */
  lemma WeekOfMonth(t: int, dow: int, nth: int, r: Day)
    requires 0 <= dow < 7 && 1 <= nth <= 4
    requires r == MonthStart(t) + WeekdayOffset(MonthStart(t), dow) + 7 * (nth - 1)
    ensures MonthIndex(r) == t && Weekday(r) == dow
    ensures ToCivil(r).day == WeekdayOffset(MonthStart(t), dow) + 7 * (nth - 1) + 1
  {
    var o := WeekdayOffset(MonthStart(t), dow);
    DayOfMonth(t, r, o + 7 * (nth - 1) + 1);
    WeekdayKept(MonthStart(t) + o, dow, nth - 1, r);
  }

  /** Whole weeks after a weekday `dow` fall on weekday `dow` too. */
  lemma WeekdayKept(a: Day, dow: int, j: int, r: Day)
    requires Weekday(a) == dow && r == a + 7 * j
    ensures Weekday(r) == dow
  {
    WeekdayAfterWeeks(a, j);
  }

  /** `calculateNextDueDate`: one rule per frequency label; "One Time" and
      every label without a rule give the base date back. The only failure
      is the Monthly rule's with a truthy, non-numeric `dateOfMonth`. */
  function NextDueDate(base: Day, frequency: string, p: Params): (r: Result<Day, CalcError>)
    ensures r.Failure? <==>
      frequency == "Monthly" && Truthy(p.dateOfMonth) && ParseInt(p.dateOfMonth.value).None?
    ensures !IsRecurringLabel(frequency) ==> r == Success(base)
    ensures frequency == "Daily" ==> r.Success? && r.value - base == 1
    ensures frequency == "Weekly" ==> r == Success(WeeklyNext(base, p.dayOfWeek))
    ensures frequency == "Monthly" ==> r == MonthlyNext(base, p.dateOfMonth)
    ensures frequency == "Specific Day's" || frequency == "Specific Days" ==>
      r == Success(SpecificDayNext(base, p))
    ensures frequency == "Quarterly" ==> r == Success(AddMonths(base, 3))
    ensures frequency == "Half-yearly" || frequency == "Half yearly" ==> r == Success(AddMonths(base, 6))
    ensures frequency == "Yearly" ==> r == Success(AddYears(base, 1))
  {
    if frequency == "Daily" then Success(AddDays(base, 1))
    else if frequency == "Weekly" then Success(WeeklyNext(base, p.dayOfWeek))
    else if frequency == "Monthly" then MonthlyNext(base, p.dateOfMonth)
    else if frequency == "Quarterly" then Success(AddMonths(base, 3))
    else if frequency == "Half-yearly" || frequency == "Half yearly" then Success(AddMonths(base, 6))
    else if frequency == "Yearly" then Success(AddYears(base, 1))
    else if frequency == "Specific Day's" || frequency == "Specific Days" then Success(SpecificDayNext(base, p))
    else Success(base)
  }

  /** Every recurring label moves the due date strictly forward, provided a
      Monthly `dateOfMonth`, when given, parses to a day of at least 1. */
  lemma NextDueDateAdvances(base: Day, frequency: string, p: Params)
    requires IsRecurringLabel(frequency)
    requires frequency == "Monthly" && Truthy(p.dateOfMonth) ==>
      ParseInt(p.dateOfMonth.value).Some? && ParseInt(p.dateOfMonth.value).value >= 1
    ensures NextDueDate(base, frequency, p).Success?
    ensures NextDueDate(base, frequency, p).value > base
  {
    var r := NextDueDate(base, frequency, p);
    if frequency == "Monthly" {
      MonthBounds(base);
      MonthStartStep(MonthIndex(base));
      if !Truthy(p.dateOfMonth) {
        MonthIndexOrder(base, r.value);
      }
    } else if frequency == "Quarterly" || frequency == "Half-yearly" || frequency == "Half yearly" {
      MonthIndexOrder(base, r.value);
    } else if frequency == "Yearly" {
      assert MonthIndex(r.value) == MonthIndex(base) + 12;
      MonthIndexOrder(base, r.value);
    } else if (frequency == "Specific Day's" || frequency == "Specific Days") && HasOccurrenceAndDay(p) {
      MonthIndexOrder(base, r.value);
    }
  }

  /** Quarterly, half-yearly and yearly steps land 3, 6 or 12 months on and
      keep the base's day of the month, clamped to the target month's length
      (31 January plus a quarter is 30 April, 29 February 2024 plus a year is
      28 February 2025). */
  lemma NextDueDateKeepsDay(base: Day, frequency: string, p: Params)
    ensures frequency == "Quarterly" ==> KeepsDay(base, 3, NextDueDate(base, frequency, p))
    ensures frequency == "Half-yearly" || frequency == "Half yearly" ==>
      KeepsDay(base, 6, NextDueDate(base, frequency, p))
    ensures frequency == "Yearly" ==> KeepsDay(base, 12, NextDueDate(base, frequency, p))
  {
    var r := NextDueDate(base, frequency, p);
    if frequency == "Quarterly" {
      ClampedStep(base, 3, r);
    } else if frequency == "Yearly" {
      ClampedStep(base, 12, r);
    } else if frequency == "Half-yearly" || frequency == "Half yearly" {
      ClampedStep(base, 6, r);
    }
  }

  /** `r` lies `k` months after `base`, on its day of the month clamped to
      the target month's length. */
  predicate KeepsDay(base: Day, k: int, r: Result<Day, CalcError>) {
    && r.Success?
    && MonthIndex(r.value) == MonthIndex(base) + k
    && ToCivil(r.value).day == Min(ToCivil(base).day, MonthLength(MonthIndex(base) + k))
  }

  lemma ClampedStep(base: Day, k: int, r: Result<Day, CalcError>)
    requires r == Success(AddMonths(base, k))
    ensures KeepsDay(base, k, r)
  {
  }

  /** The calculator reads only `dayOfWeek`, `dateOfMonth`, `occurrence` and
      `day`: `period`, `firstDate` and `date` never change its result. */
  lemma NextDueDateIgnoresUnreadFields(base: Day, frequency: string, p: Params, q: Params)
    requires p.dayOfWeek == q.dayOfWeek && p.dateOfMonth == q.dateOfMonth
    requires p.occurrence == q.occurrence && p.day == q.day
    ensures NextDueDate(base, frequency, p) == NextDueDate(base, frequency, q)
  {
  }

  /** "Last", offered by the form, is not in the occurrence table and so
      schedules the 1st occurrence. */
  lemma LastOccurrenceSchedulesFirst(base: Day, p: Params)
    ensures SpecificDayNext(base, p.(occurrence := Some("Last")))
         == SpecificDayNext(base, p.(occurrence := Some("1st")))
  {
    var last, first := p.(occurrence := Some("Last")), p.(occurrence := Some("1st"));
    assert OccurrenceNumber("Last").GetOr(1) == OccurrenceNumber("1st").GetOr(1);
    assert HasOccurrenceAndDay(last) == HasOccurrenceAndDay(first) && last.day == first.day;
  }
}
