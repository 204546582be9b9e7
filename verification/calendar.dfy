/**
 * The proleptic Gregorian calendar the reconciler relies on: the length of
 * a month (`calendar.monthrange`), the day of the week, and the count of
 * Monday-to-Friday days that `np.busday_count` returns with its default
 * week mask and no holidays.
 */
module Calendar {

  /** A calendar date at day precision: what a parsed `Date` cell holds. */
  datatype Date = Date(year: int, month: int, day: int)

  /** A time of day: what a parsed `Start time` or `End time` cell holds. */
  datatype Time = Time(hour: int, minute: int, second: int)

  predicate IsLeapYear(y: int) {
    y % 4 == 0 && (y % 100 != 0 || y % 400 == 0)
  }

  function DaysInYear(y: int): int {
    if IsLeapYear(y) then 366 else 365
  }

  /** The last day of month `m` of year `y` (the second half of `monthrange(y, m)`). */
  function DaysInMonth(y: int, m: int): (n: int)
    ensures 28 <= n <= 31
    ensures n == 29 <==> m == 2 && IsLeapYear(y)
    ensures n == 28 <==> m == 2 && !IsLeapYear(y)
  {
    if m == 2 then (if IsLeapYear(y) then 29 else 28)
    else if m == 4 || m == 6 || m == 9 || m == 11 then 30
    else 31
  }

  predicate ValidDate(d: Date) {
    1 <= d.year && 1 <= d.month <= 12 && 1 <= d.day <= DaysInMonth(d.year, d.month)
  }

  predicate ValidTime(t: Time) {
    0 <= t.hour < 24 && 0 <= t.minute < 60 && 0 <= t.second < 60
  }

  /** Lexicographic order on (year, month, day). */
  predicate NotAfter(a: Date, b: Date) {
    a.year < b.year || (a.year == b.year && (a.month < b.month || (a.month == b.month && a.day <= b.day)))
  }

  /** Days from 0001-01-01 to 1 January of year `y`. */
  function DaysBeforeYear(y: int): int {
    var p := y - 1;
    365 * p + p / 4 - p / 100 + p / 400
  }

  /** Days from 1 January to the first of month `m` (1..12) of year `y`. */
  function DaysBeforeMonth(y: int, m: int): int {
    var leap := if IsLeapYear(y) && m > 2 then 1 else 0;
    leap + (
      if m <= 1 then 0 else if m == 2 then 31 else if m == 3 then 59
      else if m == 4 then 90 else if m == 5 then 120 else if m == 6 then 151
      else if m == 7 then 181 else if m == 8 then 212 else if m == 9 then 243
      else if m == 10 then 273 else if m == 11 then 304 else 334)
  }

  /** Day number of a date, counting 0001-01-01 (a Monday) as day 0. */
  function DayNumber(d: Date): int {
    DaysBeforeYear(d.year) + DaysBeforeMonth(d.year, d.month) + d.day - 1
  }

  /** Day of the week: 0 is Monday, 6 is Sunday. */
  function Weekday(d: Date): (w: int)
    ensures 0 <= w < 7
  {
    DayNumber(d) % 7
  }

  /** The date after `d`. */
  function NextDay(d: Date): Date {
    if d.day < DaysInMonth(d.year, d.month) then Date(d.year, d.month, d.day + 1)
    else if d.month < 12 then Date(d.year, d.month + 1, 1)
    else Date(d.year + 1, 1, 1)
  }

  lemma {:induction false} Step4(y: int)
    ensures y / 4 - (y - 1) / 4 == if y % 4 == 0 then 1 else 0
  {
  }

  lemma {:induction false} Step100(y: int)
    ensures y / 100 - (y - 1) / 100 == if y % 100 == 0 then 1 else 0
  {
  }

  lemma {:induction false} Step400(y: int)
    ensures y / 400 - (y - 1) / 400 == if y % 400 == 0 then 1 else 0
  {
  }

  lemma {:induction false} YearBoundary(y: int)
    ensures DaysBeforeYear(y + 1) == DaysBeforeYear(y) + DaysInYear(y)
  {
    Step4(y);
    Step100(y);
    Step400(y);
    if y % 400 == 0 {
      assert y % 100 == 0 && y % 4 == 0;
    } else if y % 100 == 0 {
      assert y % 4 == 0;
    }
  }

  /** Day numbers of consecutive valid dates are consecutive, so `Weekday`
      advances by one each day and the day count is that of the calendar. */
  lemma {:induction false} NextDayNumber(d: Date)
    requires ValidDate(d)
    ensures ValidDate(NextDay(d))
    ensures DayNumber(NextDay(d)) == DayNumber(d) + 1
  {
    if d.day == DaysInMonth(d.year, d.month) && d.month == 12 {
      YearBoundary(d.year);
    }
  }

  /** 1 January 2024 was a Monday. */
  lemma {:induction false} FirstOfJanuary2024IsMonday()
    ensures Weekday(Date(2024, 1, 1)) == 0
  {
  }

  /** Number of day numbers `n` in [start, end) that fall on Monday..Friday. */
  function CountWeekdays(start: int, end: int): (c: int)
    ensures 0 <= c
    decreases end - start
  {
    if end <= start then 0
    else CountWeekdays(start, end - 1) + (if (end - 1) % 7 < 5 then 1 else 0)
  }

  /** The weekday after weekday `w` (0 = Monday .. 6 = Sunday). */
  function NextWeekday(w: int): int {
    if w >= 6 then 0 else w + 1
  }

  /** Monday..Friday days among `r` consecutive days whose first is weekday `w`. */
  function PartialWeek(w: int, r: int): (p: int)
    ensures 0 <= p && (0 <= r ==> p <= r)
    decreases r
  {
    if r <= 0 then 0
    else (if w < 5 then 1 else 0) + PartialWeek(NextWeekday(w), r - 1)
  }

  /**
   * `np.busday_count(begin, end)` on day numbers with the default week mask:
   * the half-open range [begin, end), whole weeks first, then what remains.
   */
  function BusdayCount(begin: int, end: int): (c: int)
    requires begin <= end
    ensures 0 <= c <= end - begin
  {
    var n := end - begin;
    5 * (n / 7) + PartialWeek(begin % 7, n % 7)
  }

  lemma {:induction false} CountWeekdaysSplit(a: int, b: int, c: int)
    requires a <= b <= c
    ensures CountWeekdays(a, c) == CountWeekdays(a, b) + CountWeekdays(b, c)
    decreases c - b
  {
    if b < c {
      CountWeekdaysSplit(a, b, c - 1);
    }
  }

  lemma {:induction false} CountWeekdaysFromFront(a: int, c: int)
    requires a < c
    ensures CountWeekdays(a, c) == (if a % 7 < 5 then 1 else 0) + CountWeekdays(a + 1, c)
  {
    CountWeekdaysSplit(a, a + 1, c);
  }

  lemma {:induction false} WeekdayStep(b: int)
    ensures NextWeekday(b % 7) == (b + 1) % 7
  {
  }

  lemma {:induction false} WeekShift(b: int, q: int)
    ensures (b + 7 * q) % 7 == b % 7
  {
  }

  lemma {:induction false} PartialWeekCounts(b: int, r: int)
    requires 0 <= r
    ensures PartialWeek(b % 7, r) == CountWeekdays(b, b + r)
    decreases r
  {
    if r > 0 {
      CountWeekdaysFromFront(b, b + r);
      WeekdayStep(b);
      PartialWeekCounts(b + 1, r - 1);
    }
  }

  lemma {:induction false} WholeWeek(b: int)
    ensures CountWeekdays(b, b + 7) == 5
  {
    PartialWeekCounts(b, 7);
    var w := b % 7;
    assert PartialWeek(w, 7) == 5 by {
      if w == 0 {} else if w == 1 {} else if w == 2 {} else if w == 3 {}
      else if w == 4 {} else if w == 5 {} else {}
    }
  }

  lemma {:induction false} WholeWeeks(b: int, q: nat)
    ensures CountWeekdays(b, b + 7 * q) == 5 * q
  {
    if q > 0 {
      WholeWeeks(b, q - 1);
      WholeWeek(b + 7 * (q - 1));
      CountWeekdaysSplit(b, b + 7 * (q - 1), b + 7 * q);
    }
  }

  /** numpy's whole-weeks-then-remainder count is the plain day-by-day count. */
  lemma {:induction false} BusdayCountIsCount(begin: int, end: int)
    requires begin <= end
    ensures BusdayCount(begin, end) == CountWeekdays(begin, end)
  {
    var n := end - begin;
    var q, r := n / 7, n % 7;
    WholeWeeks(begin, q);
    var mid := begin + 7 * q;
    WeekShift(begin, q);
    PartialWeekCounts(mid, r);
    CountWeekdaysSplit(begin, mid, end);
  }

  /** The days of month `m` of year `y` numbered 1..k-1 that are Monday..Friday. */
  ghost function WeekdaysOfMonthBefore(y: int, m: int, k: int): set<int> {
    set d | 1 <= d < k && Weekday(Date(y, m, d)) < 5
  }

  lemma {:induction false} WeekdaysOfMonthCount(y: int, m: int, k: int)
    requires 1 <= k
    ensures |WeekdaysOfMonthBefore(y, m, k)| ==
            CountWeekdays(DayNumber(Date(y, m, 1)), DayNumber(Date(y, m, 1)) + k - 1)
    decreases k
  {
    var first := DayNumber(Date(y, m, 1));
    if k > 1 {
      WeekdaysOfMonthCount(y, m, k - 1);
      var before := WeekdaysOfMonthBefore(y, m, k - 1);
      var d := k - 1;
      assert DayNumber(Date(y, m, d)) == first + k - 2;
      if Weekday(Date(y, m, d)) < 5 {
        assert WeekdaysOfMonthBefore(y, m, k) == before + {d};
        assert d !in before;
      } else {
        assert WeekdaysOfMonthBefore(y, m, k) == before;
      }
    } else {
      assert WeekdaysOfMonthBefore(y, m, k) == {};
    }
  }

  /**
   * `WorkingDays` as `calculate_monthly_hours` computes it:
   * `busday_count` from the first of the month to its last day, which numpy
   * takes as an exclusive end, so the last day is never counted.
   */
  function WorkingDays(y: int, m: int): (n: int)
    ensures 0 <= n < DaysInMonth(y, m)
  {
    BusdayCount(DayNumber(Date(y, m, 1)), DayNumber(Date(y, m, DaysInMonth(y, m))))
  }

  /** The working days of a month are its Monday..Friday days 1 .. last-1;
      they depend on the year and the month only. */
  lemma {:induction false} WorkingDaysAreWeekdaysBeforeLastDay(y: int, m: int)
    ensures WorkingDays(y, m) == |WeekdaysOfMonthBefore(y, m, DaysInMonth(y, m))|
  {
    var first := DayNumber(Date(y, m, 1));
    var last := DayNumber(Date(y, m, DaysInMonth(y, m)));
    BusdayCountIsCount(first, last);
    WeekdaysOfMonthCount(y, m, DaysInMonth(y, m));
  }

  lemma {:induction false} CountWeekdaysAtMost(a: int, b: int)
    requires a <= b
    ensures CountWeekdays(a, b) <= b - a
    decreases b - a
  {
    if a < b {
      CountWeekdaysAtMost(a, b - 1);
    }
  }

  /** Between 19 and 22 days of any month are counted. */
  lemma {:induction false} WorkingDaysBounds(y: int, m: int)
    ensures 19 <= WorkingDays(y, m) <= 22
  {
    var first := DayNumber(Date(y, m, 1));
    var last := DayNumber(Date(y, m, DaysInMonth(y, m)));
    assert last - first == DaysInMonth(y, m) - 1;
    BusdayCountIsCount(first, last);
    WholeWeeks(first, 3);
    if last - first == 27 {
      WholeWeek(first + 21);
      CountWeekdaysSplit(first, first + 21, last);
      CountWeekdaysSplit(first + 21, last, first + 28);
      CountWeekdaysAtMost(last, first + 28);
    } else {
      WholeWeeks(first, 4);
      CountWeekdaysSplit(first, first + 28, last);
      CountWeekdaysAtMost(first + 28, last);
    }
  }

  /** The last day of the month would add one more when it is a weekday. */
  lemma {:induction false} LastDayNeverCounted(y: int, m: int)
    ensures |WeekdaysOfMonthBefore(y, m, DaysInMonth(y, m) + 1)| ==
            WorkingDays(y, m) + (if Weekday(Date(y, m, DaysInMonth(y, m))) < 5 then 1 else 0)
  {
    var first := DayNumber(Date(y, m, 1));
    var last := DayNumber(Date(y, m, DaysInMonth(y, m)));
    BusdayCountIsCount(first, last);
    WeekdaysOfMonthCount(y, m, DaysInMonth(y, m) + 1);
  }

  /** February 2024 has 21 Monday..Friday days, but its last day, Thursday
      the 29th, is excluded, so the code counts 20. */
  lemma {:induction false} February2024()
    ensures WorkingDays(2024, 2) == 20
    ensures Weekday(Date(2024, 2, 29)) == 3
    ensures |WeekdaysOfMonthBefore(2024, 2, 30)| == 21
  {
    assert DaysBeforeYear(2024) == 738885;
    assert DayNumber(Date(2024, 2, 1)) == 738916;
    assert DayNumber(Date(2024, 2, 29)) == 738944;
    assert BusdayCount(738916, 738944) == 20;
    LastDayNeverCounted(2024, 2);
  }

  /** April 2023 ends on a Sunday, so excluding the last day changes nothing. */
  lemma {:induction false} April2023()
    ensures WorkingDays(2023, 4) == 20
    ensures Weekday(Date(2023, 4, 30)) == 6
  {
    assert DaysBeforeYear(2023) == 738520;
    assert DayNumber(Date(2023, 4, 1)) == 738610;
    assert DayNumber(Date(2023, 4, 30)) == 738639;
    assert 738610 % 7 == 5;
    assert BusdayCount(738610, 738639) == 20 by {
      assert PartialWeek(5, 1) == 0;
    }
  }
}
