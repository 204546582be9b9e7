/**
 * `compare_hours`: every row of the first daily pivot is looked up by
 * (Date, Employee) in the second; when a row is found and the hours differ,
 * a comparison is reported with code 1 (first pivot has more hours) or 2
 * (second pivot has more). Rows without a counterpart, and rows with equal
 * hours, are not reported; rows that only the second pivot has are never
 * looked at.
 *
 * `CompareHours` is the loop; `Discrepancies` is the function it is proved
 * against; `Emitted` is a declarative description of which rows are reported.
 */
module Reconciler {
  import opened Wrappers
  import opened Calendar
  import opened Aggregation

  /** One reported discrepancy. The first pivot's hours are `firstHours`, the
      second's `secondHours`. */
  datatype Comparison = Comparison(date: Date, employee: string,
                                   firstHours: real, secondHours: real, code: int)

  predicate SameDay(a: DailyRow, date: Date, employee: string) {
    a.date == date && a.employee == employee
  }

  /** The first row of `df` for (`date`, `employee`), as
      `df[(df['Date'] == date) & (df['Employee'] == employee)].values[0]` picks it. */
  function FirstMatch(df: seq<DailyRow>, date: Date, employee: string): (r: Option<nat>)
    ensures r.Some? ==> r.value < |df| && SameDay(df[r.value], date, employee)
    ensures r.Some? ==> forall j :: 0 <= j < r.value ==> !SameDay(df[j], date, employee)
    ensures r.None? ==> forall j :: 0 <= j < |df| ==> !SameDay(df[j], date, employee)
  {
    if df == [] then None
    else if SameDay(df[0], date, employee) then Some(0)
    else
      match FirstMatch(df[1..], date, employee)
      case None => None
      case Some(j) => Some(j + 1)
  }

  /** 1 when the first figure is larger, 2 when the second is, 0 when equal. */
  function Classify(first: real, second: real): (c: int)
    ensures c == 1 <==> first > second
    ensures c == 2 <==> first < second
    ensures c == 0 <==> first == second
  {
    if first > second then 1 else if first < second then 2 else 0
  }

  /** What one row of the first pivot contributes: nothing, or one comparison. */
  function Outcome(row: DailyRow, df2: seq<DailyRow>): (o: seq<Comparison>)
    ensures |o| <= 1
    ensures forall k :: 0 <= k < |o| ==> o[k].code != 0 && o[k].code == Classify(o[k].firstHours, o[k].secondHours)
  {
    match FirstMatch(df2, row.date, row.employee)
    case None => []
    case Some(j) =>
      var code := Classify(row.hours, df2[j].hours);
      if code != 0 then [Comparison(row.date, row.employee, row.hours, df2[j].hours, code)] else []
  }

  /** The comparisons reported for `df1` against `df2`, in `df1`'s order. */
  function Discrepancies(df1: seq<DailyRow>, df2: seq<DailyRow>): (d: seq<Comparison>)
    ensures |d| <= |df1|
    ensures forall k :: 0 <= k < |d| ==> d[k].code != 0 && d[k].code == Classify(d[k].firstHours, d[k].secondHours)
  {
    if df1 == [] then []
    else Discrepancies(df1[..|df1| - 1], df2) + Outcome(df1[|df1| - 1], df2)
  }

  method CompareHours(df1: seq<DailyRow>, df2: seq<DailyRow>) returns (results: seq<Comparison>)
    ensures results == Discrepancies(df1, df2)
  {
    results := [];
    var i := 0;
    while i < |df1|
      invariant 0 <= i <= |df1|
      invariant results == Discrepancies(df1[..i], df2)
    {
      var row := df1[i];
      var match2 := FirstMatch(df2, row.date, row.employee);
      if match2.Some? {
        var hours2 := df2[match2.value].hours;
        var comparison := 0;
        if row.hours > hours2 {
          comparison := 1;
        } else if row.hours < hours2 {
          comparison := 2;
        }
        if comparison != 0 {
          results := results + [Comparison(row.date, row.employee, row.hours, hours2, comparison)];
        }
      }
      assert df1[..i + 1][..i] == df1[..i];
      i := i + 1;
    }
    assert df1[..i] == df1;
  }

  // ----------------------------------------------------- what is reported

  /** Row `row` of the first pivot has a counterpart in `df2` whose hours
      differ from its own. */
  predicate Differs(row: DailyRow, df2: seq<DailyRow>) {
    var m := FirstMatch(df2, row.date, row.employee);
    m.Some? && df2[m.value].hours != row.hours
  }

  /** The comparison reported for a row that differs. */
  function Report(row: DailyRow, df2: seq<DailyRow>): Comparison
    requires Differs(row, df2)
  {
    var h := df2[FirstMatch(df2, row.date, row.employee).value].hours;
    Comparison(row.date, row.employee, row.hours, h, Classify(row.hours, h))
  }

  /** The positions in `df1` of the rows that differ, ascending. */
  function Emitted(df1: seq<DailyRow>, df2: seq<DailyRow>): (e: seq<nat>)
    ensures forall k :: 0 <= k < |e| ==> e[k] < |df1| && Differs(df1[e[k]], df2)
    ensures forall k, l :: 0 <= k < l < |e| ==> e[k] < e[l]
  {
    if df1 == [] then []
    else
      var front := Emitted(df1[..|df1| - 1], df2);
      if Differs(df1[|df1| - 1], df2) then front + [|df1| - 1] else front
  }

  lemma {:induction false} EmittedComplete(df1: seq<DailyRow>, df2: seq<DailyRow>, i: nat)
    requires i < |df1| && Differs(df1[i], df2)
    ensures i in Emitted(df1, df2)
    decreases |df1|
  {
    var n := |df1| - 1;
    if i < n {
      EmittedComplete(df1[..n], df2, i);
      assert df1[..n][i] == df1[i];
    }
  }

  /** A row of `df1` is among the emitted positions exactly when it differs
      from its counterpart in `df2`. */
  lemma {:induction false} EmittedExactly(df1: seq<DailyRow>, df2: seq<DailyRow>)
    ensures forall i :: 0 <= i < |df1| ==> (i in Emitted(df1, df2) <==> Differs(df1[i], df2))
  {
    forall i | 0 <= i < |df1| && Differs(df1[i], df2)
      ensures i in Emitted(df1, df2)
    {
      EmittedComplete(df1, df2, i);
    }
  }

  lemma {:induction false} OutcomeIsReport(row: DailyRow, df2: seq<DailyRow>)
    ensures Outcome(row, df2) == if Differs(row, df2) then [Report(row, df2)] else []
  {
  }

  /** The comparisons are exactly the reports of the emitted rows, in order:
      with `EmittedExactly`, one comparison per row of `df1` whose first
      counterpart in `df2` has different hours, and none for any other row. */
  lemma {:induction false} DiscrepanciesAreReports(df1: seq<DailyRow>, df2: seq<DailyRow>)
    ensures |Discrepancies(df1, df2)| == |Emitted(df1, df2)|
    ensures forall k :: 0 <= k < |Emitted(df1, df2)| ==>
              Discrepancies(df1, df2)[k] == Report(df1[Emitted(df1, df2)[k]], df2)
  {
    if df1 != [] {
      var n := |df1| - 1;
      var front := df1[..n];
      DiscrepanciesAreReports(front, df2);
      OutcomeIsReport(df1[n], df2);
      var e := Emitted(front, df2);
      forall k | 0 <= k < |e|
        ensures front[e[k]] == df1[e[k]]
      {
      }
    }
  }

  /** Every comparison carries code 1 or 2, 1 exactly when the first pivot's
      hours are the larger; equal hours are never reported. */
  lemma {:induction false} DiscrepancyCodes(df1: seq<DailyRow>, df2: seq<DailyRow>)
    ensures forall c :: c in Discrepancies(df1, df2) ==>
              (c.code == 1 || c.code == 2) && c.firstHours != c.secondHours &&
              (c.code == 1 <==> c.firstHours > c.secondHours)
  {
    if df1 != [] {
      DiscrepancyCodes(df1[..|df1| - 1], df2);
    }
  }

  /** A (Date, Employee) that the first pivot lacks is never reported, even
      when the second pivot has hours for it. */
  lemma {:induction false} OnlyFirstPivotKeys(df1: seq<DailyRow>, df2: seq<DailyRow>)
    ensures forall c :: c in Discrepancies(df1, df2) ==>
              exists i :: 0 <= i < |df1| && SameDay(df1[i], c.date, c.employee) && df1[i].hours == c.firstHours
  {
    if df1 != [] {
      var n := |df1| - 1;
      OnlyFirstPivotKeys(df1[..n], df2);
      forall c | c in Discrepancies(df1, df2)
        ensures exists i :: 0 <= i < |df1| && SameDay(df1[i], c.date, c.employee) && df1[i].hours == c.firstHours
      {
        if c in Discrepancies(df1[..n], df2) {
          var i :| 0 <= i < n && SameDay(df1[..n][i], c.date, c.employee) && df1[..n][i].hours == c.firstHours;
          assert df1[..n][i] == df1[i];
        } else {
          assert SameDay(df1[n], c.date, c.employee) && df1[n].hours == c.firstHours;
        }
      }
    }
  }

  /** When the second pivot holds two rows for one (Date, Employee), only the
      first of them is compared. */
  lemma {:induction false} SecondHoursFromFirstMatch(df1: seq<DailyRow>, df2: seq<DailyRow>)
    ensures forall c :: c in Discrepancies(df1, df2) ==>
              exists j :: 0 <= j < |df2| && SameDay(df2[j], c.date, c.employee) && df2[j].hours == c.secondHours &&
                          forall l :: 0 <= l < j ==> !SameDay(df2[l], c.date, c.employee)
  {
    if df1 != [] {
      var n := |df1| - 1;
      SecondHoursFromFirstMatch(df1[..n], df2);
      var m := FirstMatch(df2, df1[n].date, df1[n].employee);
      if m.Some? {
        assert SameDay(df2[m.value], df1[n].date, df1[n].employee);
      }
    }
  }

  // ------------------------------------------------------ output columns

  /** The rows of the comparison file with its column labels. */
  datatype LabelledRow = LabelledRow(date: Date, employee: string,
                                     zalarisHours: real, sapHours: real, comparison: int)

  /** The labels as `compare_hours` writes them: the first pivot's hours go
      under 'Zalaris Hours', the second's under 'SAP Hours'. */
  function LabelAsWritten(c: Comparison): LabelledRow {
    LabelledRow(c.date, c.employee, c.firstHours, c.secondHours, c.code)
  }

  /** `main` passes the SAP pivot first: on a day where SAP has 8 hours and
      Zalaris 7.5, the column labelled 'Zalaris Hours' holds SAP's 8. */
  lemma {:induction false} SapHoursUnderZalarisLabel()
    ensures var d := Date(2024, 2, 1);
            var sap := [DailyRow(d, "A", 8.0, SapText("", "", ""), true)];
            var zalaris := [DailyRow(d, "A", 7.5, HrText(""), false)];
            Discrepancies(sap, zalaris) == [Comparison(d, "A", 8.0, 7.5, 1)] &&
            LabelAsWritten(Discrepancies(sap, zalaris)[0]).zalarisHours == 8.0
  {
    var d := Date(2024, 2, 1);
    var sap := [DailyRow(d, "A", 8.0, SapText("", "", ""), true)];
    var zalaris := [DailyRow(d, "A", 7.5, HrText(""), false)];
    assert sap[..0] == [];
    assert FirstMatch(zalaris, d, "A") == Some(0);
  }

  /** The labels by the pivot each figure comes from, SAP first as `main`
      passes them. */
  function LabelBySource(c: Comparison): LabelledRow {
    LabelledRow(c.date, c.employee, c.secondHours, c.firstHours, c.code)
  }

  /** The comparison file of `main`: the SAP pivot against the Zalaris pivot,
      each figure under its own pivot's label. */
  function ComparisonFile(sap: seq<DailyRow>, zalaris: seq<DailyRow>): seq<LabelledRow> {
    var d := Discrepancies(sap, zalaris);
    seq(|d|, k requires 0 <= k < |d| => LabelBySource(d[k]))
  }

  /** Every row of the comparison file shows under 'SAP Hours' the hours of
      the SAP row it reports and under 'Zalaris Hours' those of the first
      Zalaris row for the same (Date, Employee); code 1 means SAP has more. */
  lemma {:induction false} ComparisonFileLabels(sap: seq<DailyRow>, zalaris: seq<DailyRow>)
    ensures |ComparisonFile(sap, zalaris)| == |Emitted(sap, zalaris)|
    ensures forall k :: 0 <= k < |ComparisonFile(sap, zalaris)| ==>
              var row := sap[Emitted(sap, zalaris)[k]];
              var m := FirstMatch(zalaris, row.date, row.employee);
              m.Some? &&
              ComparisonFile(sap, zalaris)[k].sapHours == row.hours &&
              ComparisonFile(sap, zalaris)[k].zalarisHours == zalaris[m.value].hours &&
              ComparisonFile(sap, zalaris)[k].sapHours != ComparisonFile(sap, zalaris)[k].zalarisHours &&
              (ComparisonFile(sap, zalaris)[k].comparison == 1 <==>
               ComparisonFile(sap, zalaris)[k].sapHours > ComparisonFile(sap, zalaris)[k].zalarisHours)
  {
    DiscrepanciesAreReports(sap, zalaris);
  }
}
