/**
 * The two summaries built from the typed records of one export:
 *
 *  - the daily pivot (`create_pivot`): one row per (Date, Employee), the
 *    hours summed, the descriptive columns taken from the first record of
 *    the group, and the row flagged when its hours exceed the daily
 *    threshold;
 *  - the monthly table (`calculate_monthly_hours`): one row per
 *    (Employee, calendar month), the hours summed, the month written as
 *    "YYYY-MM" and split back into Year and Month, the month's working days
 *    counted the way `np.busday_count(first, last)` counts them, the
 *    monthly ceiling `WorkingDays * 7.5`, and the row flagged when its hours
 *    exceed the ceiling.
 *
 * Rows come out in the order their keys first appear among the records.
 */
module Aggregation {
  import opened Wrappers
  import opened Calendar
  import opened Text
  import opened Grouping
  import opened Normaliser

  /** Hours in a normal working day. */
  const ThresholdHours: real := 7.5

  // ------------------------------------------------------------ daily pivot

  /** The index of the daily pivot. */
  datatype DayKey = DayKey(date: Date, employee: string)

  /** The columns the daily pivot takes from the first record of a group. */
  datatype Descriptive =
    | SapText(aaText: string, receiver: string, shortText: string)
    | HrText(aaCode: string)

  datatype DailyRow = DailyRow(date: Date, employee: string, hours: real,
                               descriptive: Descriptive, investigate: bool)

  function DescriptiveOf(d: Detail): Descriptive {
    match d
    case SapDetail(text, receiver, short, _, _) => SapText(text, receiver, short)
    case HrDetail(code, _) => HrText(code)
  }

  function DayKeyOf(r: Record): DayKey {
    DayKey(r.date, r.employee)
  }

  function DailyEntry(r: Record): Entry<DayKey, Descriptive> {
    Entry(DayKeyOf(r), DescriptiveOf(r.detail), r.hours)
  }

  function DailyEntries(rs: seq<Record>): seq<Entry<DayKey, Descriptive>> {
    seq(|rs|, i requires 0 <= i < |rs| => DailyEntry(rs[i]))
  }

  /** The (Date, Employee) of every record, in record order. */
  function DayKeys(rs: seq<Record>): seq<DayKey> {
    seq(|rs|, i requires 0 <= i < |rs| => DayKeyOf(rs[i]))
  }

  function DailyRowOf(g: Entry<DayKey, Descriptive>): DailyRow {
    DailyRow(g.key.date, g.key.employee, g.hours, g.first, g.hours > ThresholdHours)
  }

  /** The daily pivot of the records. */
  function DailyPivot(rs: seq<Record>): (p: seq<DailyRow>)
    ensures |p| <= |rs| && (rs != [] ==> p != [])
    ensures forall i :: 0 <= i < |p| ==> (p[i].investigate <==> p[i].hours > ThresholdHours)
  {
    var gs := Group(DailyEntries(rs));
    seq(|gs|, i requires 0 <= i < |gs| => DailyRowOf(gs[i]))
  }

  function RowDayKey(row: DailyRow): DayKey {
    DayKey(row.date, row.employee)
  }

  function PivotKeys(p: seq<DailyRow>): seq<DayKey> {
    seq(|p|, i requires 0 <= i < |p| => RowDayKey(p[i]))
  }

  /** Hours of all records of `employee` on `date`: the reference the pivot's
      sums are checked against. */
  function DayHours(rs: seq<Record>, k: DayKey): real {
    if rs == [] then 0.0
    else
      var r := rs[|rs| - 1];
      DayHours(rs[..|rs| - 1], k) + (if DayKeyOf(r) == k then r.hours else 0.0)
  }

  /** Hours of all records. */
  function RecordHours(rs: seq<Record>): real {
    if rs == [] then 0.0 else RecordHours(rs[..|rs| - 1]) + rs[|rs| - 1].hours
  }

  function DailyHours(p: seq<DailyRow>): real {
    if p == [] then 0.0 else DailyHours(p[..|p| - 1]) + p[|p| - 1].hours
  }

  lemma {:induction false} DailyEntriesPrefix(rs: seq<Record>)
    requires rs != []
    ensures DailyEntries(rs)[..|rs| - 1] == DailyEntries(rs[..|rs| - 1])
    ensures DailyEntries(rs)[|rs| - 1] == DailyEntry(rs[|rs| - 1])
  {
  }

  lemma {:induction false} DayHoursIsGroupSum(rs: seq<Record>, k: DayKey)
    ensures DayHours(rs, k) == GroupSum(DailyEntries(rs), k)
  {
    if rs != [] {
      DailyEntriesPrefix(rs);
      DayHoursIsGroupSum(rs[..|rs| - 1], k);
    }
  }

  lemma {:induction false} RecordHoursIsTotal(rs: seq<Record>)
    ensures RecordHours(rs) == Total(DailyEntries(rs))
  {
    if rs != [] {
      DailyEntriesPrefix(rs);
      RecordHoursIsTotal(rs[..|rs| - 1]);
    }
  }

  lemma {:induction false} DailyHoursIsTotal(gs: seq<Entry<DayKey, Descriptive>>)
    ensures DailyHours(seq(|gs|, i requires 0 <= i < |gs| => DailyRowOf(gs[i]))) == Total(gs)
  {
    if gs != [] {
      var p := seq(|gs|, i requires 0 <= i < |gs| => DailyRowOf(gs[i]));
      var front := gs[..|gs| - 1];
      assert p[..|p| - 1] == seq(|front|, i requires 0 <= i < |front| => DailyRowOf(front[i]));
      DailyHoursIsTotal(front);
    }
  }

  /** The pivot has one row per distinct (Date, Employee) of the records, in
      first-appearance order: every record's key has a row, every row's key
      comes from a record, and no key has two rows. */
  lemma {:induction false} DailyPivotKeys(rs: seq<Record>)
    ensures PivotKeys(DailyPivot(rs)) == Distinct(DayKeys(rs))
  {
    var es := DailyEntries(rs);
    GroupKeys(es);
    assert Keys(es) == DayKeys(rs);
    var p := DailyPivot(rs);
    assert PivotKeys(p) == Keys(Group(es));
  }

  /** Each row's hours are the sum of the hours of all records with its
      (Date, Employee), and the row is flagged exactly when that sum exceeds
      the daily threshold. */
  lemma {:induction false} DailyPivotHours(rs: seq<Record>)
    ensures forall i :: 0 <= i < |DailyPivot(rs)| ==>
              DailyPivot(rs)[i].hours == DayHours(rs, RowDayKey(DailyPivot(rs)[i]))
    ensures forall i :: 0 <= i < |DailyPivot(rs)| ==>
              (DailyPivot(rs)[i].investigate <==> DayHours(rs, RowDayKey(DailyPivot(rs)[i])) > ThresholdHours)
  {
    var es := DailyEntries(rs);
    var gs := Group(es);
    GroupHours(es);
    forall i | 0 <= i < |gs|
      ensures DailyPivot(rs)[i].hours == DayHours(rs, RowDayKey(DailyPivot(rs)[i]))
    {
      DayHoursIsGroupSum(rs, gs[i].key);
    }
  }

  /** Each row's descriptive columns are those of the first record with its
      (Date, Employee). */
  lemma {:induction false} DailyPivotFirst(rs: seq<Record>)
    ensures forall i :: 0 <= i < |DailyPivot(rs)| ==>
              RowDayKey(DailyPivot(rs)[i]) in DayKeys(rs) &&
              DailyPivot(rs)[i].descriptive ==
              DescriptiveOf(rs[FirstIndex(DayKeys(rs), RowDayKey(DailyPivot(rs)[i]))].detail)
  {
    var es := DailyEntries(rs);
    GroupFirst(es);
    assert Keys(es) == DayKeys(rs);
  }

  /** The pivot neither loses nor invents hours. */
  lemma {:induction false} DailyPivotConservesHours(rs: seq<Record>)
    ensures DailyHours(DailyPivot(rs)) == RecordHours(rs)
  {
    var es := DailyEntries(rs);
    GroupConservesTotal(es);
    RecordHoursIsTotal(rs);
    DailyHoursIsTotal(Group(es));
  }

  // ----------------------------------------------------------- monthly table

  /** The index of the monthly table: the employee and the month the record's
      date falls in (`dt.to_period('M')`). */
  datatype MonthKey = MonthKey(employee: string, year: int, month: int)

  datatype MonthlyRow = MonthlyRow(employee: string, yearMonth: string, hours: real,
                                   year: int, month: int, workingDays: int,
                                   maxWorkingHours: real, investigate: bool)

  /** Every record's date is a calendar date whose year has four digits, as
      every date the reader accepts is. */
  predicate Dated(rs: seq<Record>) {
    forall i :: 0 <= i < |rs| ==> ValidDate(rs[i].date) && rs[i].date.year < 10000
  }

  /** The records the reader produces are dated. */
  lemma {:induction false} ReadRecordsDated(raw: RawTable, isSap: bool, rs: seq<Record>)
    requires |rs| == |raw.rows|
    requires forall i :: 0 <= i < |raw.rows| ==> RowRead(raw, isSap, i, rs[i])
    ensures Dated(rs)
  {
    forall i | 0 <= i < |rs|
      ensures ValidDate(rs[i].date) && rs[i].date.year < 10000
    {
      assert ParsableDate(rs[i].date);
    }
  }

  function MonthKeyOf(r: Record): MonthKey {
    MonthKey(r.employee, r.date.year, r.date.month)
  }

  function MonthlyEntries(rs: seq<Record>): seq<Entry<MonthKey, ()>> {
    seq(|rs|, i requires 0 <= i < |rs| => Entry(MonthKeyOf(rs[i]), (), rs[i].hours))
  }

  function MonthKeys(rs: seq<Record>): seq<MonthKey> {
    seq(|rs|, i requires 0 <= i < |rs| => MonthKeyOf(rs[i]))
  }

  predicate ValidMonthKey(k: MonthKey) {
    0 <= k.year < 10000 && 1 <= k.month <= 12
  }

  /** The month as `str(Period)` writes it: "YYYY-MM". */
  function YearMonthText(y: nat, m: nat): (s: string)
    requires y < 10000 && 1 <= m <= 12
    ensures |s| == 7 && s[4] == '-'
  {
    PadDigits(y, 4) + "-" + PadDigits(m, 2)
  }

  /** `s.split('-')` into exactly two parts, each read as a number. */
  function SplitYearMonth(s: string): (r: Option<(int, int)>)
    ensures r.Some? ==> 0 <= r.value.0 && 0 <= r.value.1 && '-' in s
  {
    match IndexOf(s, '-')
    case None => None
    case Some(i) =>
      var a := s[..i];
      var b := s[i + 1..];
      if '-' !in b && a != [] && b != [] && AllDigits(a) && AllDigits(b)
      then Some((DigitsValue(a) as int, DigitsValue(b) as int))
      else None
  }

  /** Writing the month as text and splitting it back gives the year and
      the month. */
  lemma {:induction false} YearMonthRoundTrip(y: nat, m: nat)
    requires y < 10000 && 1 <= m <= 12
    ensures SplitYearMonth(YearMonthText(y, m)) == Some((y as int, m as int))
  {
    var a := PadDigits(y, 4);
    var b := PadDigits(m, 2);
    NoSeparatorInDigits(a, '-');
    NoSeparatorInDigits(b, '-');
    IndexOfJoin(a, '-', b);
    var s := YearMonthText(y, m);
    assert s == a + ['-'] + b;
    assert s[..4] == a && s[5..] == b;
    PadDigitsValue(y, 4);
    PadDigitsValue(m, 2);
  }

  lemma {:induction false} YearMonthFebruary2024()
    ensures YearMonthText(2024, 2) == "2024-02"
  {
    assert PadDigits(2024, 4) == "2024";
    assert PadDigits(2, 2) == "02";
  }

  function MonthlyRowOf(g: Entry<MonthKey, ()>): (row: MonthlyRow)
    requires ValidMonthKey(g.key)
    ensures RowMonthKey(row) == g.key && row.hours == g.hours
    ensures row.yearMonth == YearMonthText(g.key.year, g.key.month)
    ensures row.workingDays == WorkingDays(g.key.year, g.key.month)
    ensures row.maxWorkingHours == row.workingDays as real * ThresholdHours
    ensures row.investigate <==> row.hours > row.maxWorkingHours
  {
    var text := YearMonthText(g.key.year, g.key.month);
    YearMonthRoundTrip(g.key.year, g.key.month);
    var parts := SplitYearMonth(text).value;
    var wd := WorkingDays(parts.0, parts.1);
    var ceiling := wd as real * ThresholdHours;
    MonthlyRow(g.key.employee, text, g.hours, parts.0, parts.1, wd, ceiling, g.hours > ceiling)
  }

  lemma {:induction false} MonthlyEntriesKeys(rs: seq<Record>)
    requires Dated(rs)
    ensures Keys(MonthlyEntries(rs)) == MonthKeys(rs)
    ensures forall i :: 0 <= i < |rs| ==> ValidMonthKey(MonthKeys(rs)[i])
  {
  }

  lemma {:induction false} MonthlyGroupsValid(rs: seq<Record>)
    requires Dated(rs)
    ensures forall i :: 0 <= i < |Group(MonthlyEntries(rs))| ==> ValidMonthKey(Group(MonthlyEntries(rs))[i].key)
  {
    var es := MonthlyEntries(rs);
    GroupKeysFromRows(es);
    MonthlyEntriesKeys(rs);
    forall i | 0 <= i < |Group(es)|
      ensures ValidMonthKey(Group(es)[i].key)
    {
      var k := Group(es)[i].key;
      var j :| 0 <= j < |rs| && MonthKeys(rs)[j] == k;
    }
  }

  /** The monthly table of the records. */
  function MonthlyHours(rs: seq<Record>): (t: seq<MonthlyRow>)
    requires Dated(rs)
    ensures |t| <= |rs| && (rs != [] ==> t != [])
    ensures forall i :: 0 <= i < |t| ==>
              0 <= t[i].workingDays < DaysInMonth(t[i].year, t[i].month) &&
              t[i].maxWorkingHours == t[i].workingDays as real * ThresholdHours &&
              (t[i].investigate <==> t[i].hours > t[i].maxWorkingHours)
  {
    var gs := Group(MonthlyEntries(rs));
    MonthlyGroupsValid(rs);
    seq(|gs|, i requires 0 <= i < |gs| => MonthlyRowOf(gs[i]))
  }

  function RowMonthKey(row: MonthlyRow): MonthKey {
    MonthKey(row.employee, row.year, row.month)
  }

  function MonthlyKeys(t: seq<MonthlyRow>): seq<MonthKey> {
    seq(|t|, i requires 0 <= i < |t| => RowMonthKey(t[i]))
  }

  /** Hours of all records of `k.employee` dated in month `k.month` of year
      `k.year`. */
  function MonthHours(rs: seq<Record>, k: MonthKey): real {
    if rs == [] then 0.0
    else
      var r := rs[|rs| - 1];
      MonthHours(rs[..|rs| - 1], k) + (if MonthKeyOf(r) == k then r.hours else 0.0)
  }

  function MonthlyTotal(t: seq<MonthlyRow>): real {
    if t == [] then 0.0 else MonthlyTotal(t[..|t| - 1]) + t[|t| - 1].hours
  }

  lemma {:induction false} MonthHoursIsGroupSum(rs: seq<Record>, k: MonthKey)
    ensures MonthHours(rs, k) == GroupSum(MonthlyEntries(rs), k)
  {
    if rs != [] {
      assert MonthlyEntries(rs)[..|rs| - 1] == MonthlyEntries(rs[..|rs| - 1]);
      MonthHoursIsGroupSum(rs[..|rs| - 1], k);
    }
  }

  lemma {:induction false} RecordHoursIsMonthlyTotal(rs: seq<Record>)
    ensures RecordHours(rs) == Total(MonthlyEntries(rs))
  {
    if rs != [] {
      assert MonthlyEntries(rs)[..|rs| - 1] == MonthlyEntries(rs[..|rs| - 1]);
      RecordHoursIsMonthlyTotal(rs[..|rs| - 1]);
    }
  }

  lemma {:induction false} MonthlyTotalIsTotal(gs: seq<Entry<MonthKey, ()>>)
    requires forall i :: 0 <= i < |gs| ==> ValidMonthKey(gs[i].key)
    ensures MonthlyTotal(seq(|gs|, i requires 0 <= i < |gs| => MonthlyRowOf(gs[i]))) == Total(gs)
  {
    if gs != [] {
      var t := seq(|gs|, i requires 0 <= i < |gs| => MonthlyRowOf(gs[i]));
      var front := gs[..|gs| - 1];
      assert t[..|t| - 1] == seq(|front|, i requires 0 <= i < |front| => MonthlyRowOf(front[i]));
      MonthlyTotalIsTotal(front);
    }
  }

  /** The table has one row per distinct (Employee, month) of the records,
      in first-appearance order, and each row's Year and Month are the month
      its records fall in. */
  lemma {:induction false} MonthlyKeysDistinct(rs: seq<Record>)
    requires Dated(rs)
    ensures MonthlyKeys(MonthlyHours(rs)) == Distinct(MonthKeys(rs))
  {
    var es := MonthlyEntries(rs);
    var gs := Group(es);
    GroupKeys(es);
    MonthlyEntriesKeys(rs);
    MonthlyGroupsValid(rs);
    var t := MonthlyHours(rs);
    forall i | 0 <= i < |gs|
      ensures RowMonthKey(t[i]) == gs[i].key
    {
      YearMonthRoundTrip(gs[i].key.year, gs[i].key.month);
    }
    assert MonthlyKeys(t) == Keys(gs);
  }

  /** Each row's hours are the sum over all records of its employee in its
      month, its YearMonth text is "YYYY-MM" of its Year and Month, its
      working days are the Monday..Friday days of the month before the last
      day, its ceiling is 7.5 hours per working day, and the row is flagged
      exactly when the hours exceed the ceiling. */
  lemma {:induction false} MonthlyRows(rs: seq<Record>)
    requires Dated(rs)
    ensures forall i :: 0 <= i < |MonthlyHours(rs)| ==>
              var row := MonthlyHours(rs)[i];
              ValidMonthKey(RowMonthKey(row)) &&
              row.hours == MonthHours(rs, RowMonthKey(row)) &&
              row.yearMonth == YearMonthText(row.year, row.month) &&
              row.workingDays == |WeekdaysOfMonthBefore(row.year, row.month, DaysInMonth(row.year, row.month))| &&
              19 <= row.workingDays <= 22 &&
              row.maxWorkingHours == row.workingDays as real * ThresholdHours &&
              (row.investigate <==> row.hours > row.maxWorkingHours)
  {
    var es := MonthlyEntries(rs);
    var gs := Group(es);
    GroupHours(es);
    MonthlyGroupsValid(rs);
    var t := MonthlyHours(rs);
    forall i | 0 <= i < |t|
      ensures var row := t[i];
              ValidMonthKey(RowMonthKey(row)) &&
              row.hours == MonthHours(rs, RowMonthKey(row)) &&
              row.yearMonth == YearMonthText(row.year, row.month) &&
              row.workingDays == |WeekdaysOfMonthBefore(row.year, row.month, DaysInMonth(row.year, row.month))| &&
              19 <= row.workingDays <= 22 &&
              row.maxWorkingHours == row.workingDays as real * ThresholdHours &&
              (row.investigate <==> row.hours > row.maxWorkingHours)
    {
      var k := gs[i].key;
      YearMonthRoundTrip(k.year, k.month);
      assert RowMonthKey(t[i]) == k;
      MonthHoursIsGroupSum(rs, k);
      WorkingDaysAreWeekdaysBeforeLastDay(k.year, k.month);
      WorkingDaysBounds(k.year, k.month);
    }
  }

  /** The monthly table neither loses nor invents hours. */
  lemma {:induction false} MonthlyConservesHours(rs: seq<Record>)
    requires Dated(rs)
    ensures MonthlyTotal(MonthlyHours(rs)) == RecordHours(rs)
  {
    var es := MonthlyEntries(rs);
    GroupConservesTotal(es);
    RecordHoursIsMonthlyTotal(rs);
    MonthlyGroupsValid(rs);
    MonthlyTotalIsTotal(Group(es));
  }

  /** February 2024 has a ceiling of 150 hours: 20 working days, because the
      29th, a Thursday, is not counted. */
  lemma {:induction false} February2024Ceiling()
    ensures WorkingDays(2024, 2) as real * ThresholdHours == 150.0
  {
    February2024();
  }
}
