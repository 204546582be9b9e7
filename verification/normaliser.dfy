/**
 * `read_and_preprocess` (main.py:8-33): one CSV export, every cell text,
 * becomes a table of typed records. The export's header names are renamed
 * to the canonical ones, `Date` is converted strictly, and then the SAP
 * export has its `Hours` text converted strictly and its clock times
 * tolerantly, while the HR (Zalaris) export has its `Approval date`
 * converted strictly. A strict conversion that meets a bad cell aborts the
 * whole file; a tolerant one leaves a missing value and keeps the row.
 *
 * The records keep the columns the aggregations read afterwards; a file that
 * lacks one of them fails, as the aggregation's column lookup would.
 */
module Normaliser {
  import opened Wrappers
  import opened Calendar
  import opened Text

  /** A CSV export as read: a header and rows of cells, all of them text. */
  datatype RawTable = RawTable(header: seq<string>, rows: seq<seq<string>>)

  /** The source-specific columns of a record. */
  datatype Detail =
    | SapDetail(aaText: string, receiver: string, shortText: string,
                start: Option<Time>, end: Option<Time>)
    | HrDetail(aaCode: string, approval: Date)

  /** One typed row. */
  datatype Record = Record(employee: string, date: Date, hours: real, detail: Detail)

  /** Why a file is refused: a column is missing, or the cell in `row` of a
      strictly converted `column` does not convert. */
  datatype NormaliseError =
    | MissingColumn(name: string)
    | BadValue(column: string, row: nat, text: string)

  // ---------------------------------------------------------------- renaming

  /** The rename map: the common renames, joined for SAP by the SAP-only ones. */
  function Renames(isSap: bool): (m: map<string, string>)
    ensures m.Values <= {"ID", "Employee", "AA code", "AA text", "Hours"}
    ensures m.Keys !! m.Values
  {
    var common := map[
      "Personnel No." := "ID",
      (if isSap then "Empl./appl.name" else "Name of employee or applicant") := "Employee",
      (if isSap then "Att./abs. type" else "Att./Absence type") := "AA code"];
    var sapSpecific := map["A/A type text" := "AA text", "Number (unit)" := "Hours"];
    common + (if isSap then sapSpecific else map[])
  }

  /** `df.rename(columns=...)` for one name: names not in the map stay, and
      a renamed name is never renamed again. */
  function Rename(name: string, isSap: bool): (r: string)
    ensures name !in Renames(isSap) ==> r == name
    ensures r !in Renames(isSap)
  {
    if name in Renames(isSap) then Renames(isSap)[name] else name
  }

  function RenamedHeader(header: seq<string>, isSap: bool): seq<string> {
    seq(|header|, i requires 0 <= i < |header| => Rename(header[i], isSap))
  }

  /** Which export name each canonical column comes from, per source; the
      SAP-only names are left alone in the HR export. */
  lemma {:induction false} RenameTable(isSap: bool)
    ensures Rename("Personnel No.", isSap) == "ID"
    ensures Rename("Date", isSap) == "Date"
    ensures isSap ==> Rename("Empl./appl.name", isSap) == "Employee"
                      && Rename("Att./abs. type", isSap) == "AA code"
                      && Rename("A/A type text", isSap) == "AA text"
                      && Rename("Number (unit)", isSap) == "Hours"
                      && Rename("Name of employee or applicant", isSap) == "Name of employee or applicant"
    ensures !isSap ==> Rename("Name of employee or applicant", isSap) == "Employee"
                       && Rename("Att./Absence type", isSap) == "AA code"
                       && Rename("A/A type text", isSap) == "A/A type text"
                       && Rename("Number (unit)", isSap) == "Number (unit)"
                       && Rename("Empl./appl.name", isSap) == "Empl./appl.name"
  {
  }

  // ---------------------------------------------------------- column access

  /** Position of the first column called `name`. */
  function ColumnIndex(header: seq<string>, name: string): (r: Option<nat>)
    ensures r.Some? ==> r.value < |header| && header[r.value] == name && name !in header[..r.value]
    ensures r.None? ==> name !in header
  {
    if header == [] then None
    else if header[0] == name then Some(0)
    else match ColumnIndex(header[1..], name)
      case None => None
      case Some(j) => Some(j + 1)
  }

  /** The cell of `row` in column `j`; a short row reads as empty text. */
  function Cell(row: seq<string>, j: nat): string {
    if j < |row| then row[j] else ""
  }

  function ColumnCells(rows: seq<seq<string>>, j: nat): seq<string> {
    seq(|rows|, i requires 0 <= i < |rows| => Cell(rows[i], j))
  }

  /** The cell of row `i` under the canonical column `name`. */
  function CellAt(raw: RawTable, isSap: bool, name: string, i: nat): string
    requires i < |raw.rows|
  {
    match ColumnIndex(RenamedHeader(raw.header, isSap), name)
    case None => ""
    case Some(j) => Cell(raw.rows[i], j)
  }

  function Lookup(header: seq<string>, name: string): (r: Result<nat, NormaliseError>)
    ensures r.Ok? ==> ColumnIndex(header, name) == Some(r.value)
    ensures r.Err? ==> r.error == MissingColumn(name) && name !in header
  {
    match ColumnIndex(header, name)
    case Some(j) => Ok(j)
    case None => Err(MissingColumn(name))
  }

  // ------------------------------------------------------------- conversion

  /** Hours as each source's reader converts them: the SAP cell loses its
      `" H"` units first. */
  function HoursValue(isSap: bool, text: string): Option<real> {
    if isSap then ParseSapHours(text) else ParseDecimal(text)
  }

  /** `cells[row]` is the first cell that `parse` refuses. */
  predicate FirstBad<T>(column: string, cells: seq<string>, parse: string -> Option<T>,
                        e: NormaliseError) {
    e.BadValue? && e.column == column && e.row < |cells| && e.text == cells[e.row]
    && parse(cells[e.row]).None?
    && forall k :: 0 <= k < e.row ==> parse(cells[k]).Some?
  }

  /**
   * A strict column conversion (`pd.to_datetime(..., format=...)`,
   * `.astype(float)`): every cell converted in row order, the first cell
   * that does not convert aborting with its row and text.
   */
  method ConvertStrict<T>(column: string, cells: seq<string>, parse: string -> Option<T>)
    returns (r: Result<seq<T>, NormaliseError>)
    ensures r.Ok? <==> forall i :: 0 <= i < |cells| ==> parse(cells[i]).Some?
    ensures r.Ok? ==> |r.value| == |cells|
                      && forall i :: 0 <= i < |cells| ==> parse(cells[i]) == Some(r.value[i])
    ensures r.Err? ==> FirstBad(column, cells, parse, r.error)
  {
    var values: seq<T> := [];
    var i := 0;
    while i < |cells|
      invariant 0 <= i <= |cells| && |values| == i
      invariant forall k :: 0 <= k < i ==> parse(cells[k]) == Some(values[k])
    {
      var v := parse(cells[i]);
      if v.None? {
        return Err(BadValue(column, i, cells[i]));
      }
      values := values + [v.value];
      i := i + 1;
    }
    return Ok(values);
  }

  // ------------------------------------------------------------ the reader

  /** The columns a file of each source must have. */
  function Needed(isSap: bool): seq<string> {
    if isSap then ["Date", "Hours", "Start time", "End time", "AA text", "Receiver", "Short Text", "Employee"]
    else ["Date", "Approval date", "Hours", "AA code", "Employee"]
  }

  predicate HasColumns(raw: RawTable, isSap: bool) {
    forall n :: n in Needed(isSap) ==> n in RenamedHeader(raw.header, isSap)
  }

  /** Every strictly converted cell of row `i` converts. */
  predicate RowConverts(raw: RawTable, isSap: bool, i: nat)
    requires i < |raw.rows|
  {
    ParseDate(CellAt(raw, isSap, "Date", i)).Some?
    && HoursValue(isSap, CellAt(raw, isSap, "Hours", i)).Some?
    && (!isSap ==> ParseDate(CellAt(raw, isSap, "Approval date", i)).Some?)
  }

  /** The file is read without an error. */
  predicate Accepted(raw: RawTable, isSap: bool) {
    HasColumns(raw, isSap) && forall i :: 0 <= i < |raw.rows| ==> RowConverts(raw, isSap, i)
  }

  /** `rec` is what row `i` converts to. */
  predicate RowRead(raw: RawTable, isSap: bool, i: nat, rec: Record)
    requires i < |raw.rows|
  {
    Some(rec.date) == ParseDate(CellAt(raw, isSap, "Date", i))
    && Some(rec.hours) == HoursValue(isSap, CellAt(raw, isSap, "Hours", i))
    && rec.employee == CellAt(raw, isSap, "Employee", i)
    && (if isSap then
          rec.detail == SapDetail(CellAt(raw, isSap, "AA text", i),
                                  CellAt(raw, isSap, "Receiver", i),
                                  CellAt(raw, isSap, "Short Text", i),
                                  ParseClock(CellAt(raw, isSap, "Start time", i)),
                                  ParseClock(CellAt(raw, isSap, "End time", i)))
        else
          rec.detail.HrDetail? && rec.detail.aaCode == CellAt(raw, isSap, "AA code", i)
          && Some(rec.detail.approval) == ParseDate(CellAt(raw, isSap, "Approval date", i)))
  }

  /** The error names a real problem of the file: a needed column it lacks,
      or a strictly converted cell that does not convert. */
  predicate Explains(raw: RawTable, isSap: bool, e: NormaliseError) {
    match e
    case MissingColumn(n) => n in Needed(isSap) && n !in RenamedHeader(raw.header, isSap)
    case BadValue(c, i, text) =>
      i < |raw.rows| && text == CellAt(raw, isSap, c, i)
      && ((c == "Date" && ParseDate(text).None?)
          || (c == "Hours" && HoursValue(isSap, text).None?)
          || (c == "Approval date" && !isSap && ParseDate(text).None?))
  }

  lemma {:induction false} CellAtColumn(raw: RawTable, isSap: bool, name: string, j: nat)
    requires ColumnIndex(RenamedHeader(raw.header, isSap), name) == Some(j)
    ensures forall i :: 0 <= i < |raw.rows| ==> CellAt(raw, isSap, name, i) == ColumnCells(raw.rows, j)[i]
  {
  }

  lemma {:induction false} MissingRefuses(raw: RawTable, isSap: bool, n: string)
    requires n in Needed(isSap) && n !in RenamedHeader(raw.header, isSap)
    ensures !Accepted(raw, isSap)
  {
  }

  lemma {:induction false} BadRowRefuses(raw: RawTable, isSap: bool, i: nat)
    requires i < |raw.rows| && !RowConverts(raw, isSap, i)
    ensures !Accepted(raw, isSap)
  {
  }

  /** Where the columns of a SAP file are. */
  datatype SapColumns = SapColumns(date: nat, hours: nat, start: nat, end: nat,
                                   aaText: nat, receiver: nat, shortText: nat, employee: nat)

  predicate SapColumnsFound(raw: RawTable, c: SapColumns) {
    var h := RenamedHeader(raw.header, true);
    ColumnIndex(h, "Date") == Some(c.date) && ColumnIndex(h, "Hours") == Some(c.hours)
    && ColumnIndex(h, "Start time") == Some(c.start) && ColumnIndex(h, "End time") == Some(c.end)
    && ColumnIndex(h, "AA text") == Some(c.aaText) && ColumnIndex(h, "Receiver") == Some(c.receiver)
    && ColumnIndex(h, "Short Text") == Some(c.shortText) && ColumnIndex(h, "Employee") == Some(c.employee)
  }

  /** The SAP records gathered from the converted columns; the clock times
      are converted tolerantly here. */
  function SapRecords(rows: seq<seq<string>>, c: SapColumns, dates: seq<Date>, hours: seq<real>): seq<Record>
    requires |dates| == |hours| == |rows|
  {
    seq(|rows|, i requires 0 <= i < |rows| =>
      Record(Cell(rows[i], c.employee), dates[i], hours[i],
             SapDetail(Cell(rows[i], c.aaText), Cell(rows[i], c.receiver), Cell(rows[i], c.shortText),
                       ParseClock(Cell(rows[i], c.start)), ParseClock(Cell(rows[i], c.end)))))
  }

  lemma {:induction false} SapRead(raw: RawTable, c: SapColumns, dates: seq<Date>, hours: seq<real>)
    requires SapColumnsFound(raw, c)
    requires |dates| == |raw.rows| && |hours| == |raw.rows|
    requires forall i :: 0 <= i < |raw.rows| ==> ParseDate(ColumnCells(raw.rows, c.date)[i]) == Some(dates[i])
    requires forall i :: 0 <= i < |raw.rows| ==>
               ParseSapHours(ColumnCells(raw.rows, c.hours)[i]) == Some(hours[i])
    ensures Accepted(raw, true)
    ensures forall i :: 0 <= i < |raw.rows| ==> RowRead(raw, true, i, SapRecords(raw.rows, c, dates, hours)[i])
  {
    var h := RenamedHeader(raw.header, true);
    assert HasColumns(raw, true) by {
      forall n | n in Needed(true)
        ensures n in h
      {
      }
    }
    CellAtColumn(raw, true, "Date", c.date);
    CellAtColumn(raw, true, "Hours", c.hours);
    CellAtColumn(raw, true, "Start time", c.start);
    CellAtColumn(raw, true, "End time", c.end);
    CellAtColumn(raw, true, "AA text", c.aaText);
    CellAtColumn(raw, true, "Receiver", c.receiver);
    CellAtColumn(raw, true, "Short Text", c.shortText);
    CellAtColumn(raw, true, "Employee", c.employee);
  }

  /** The HR records gathered from the converted columns. */
  function HrRecords(rows: seq<seq<string>>, codeCol: nat, employeeCol: nat,
                     dates: seq<Date>, approvals: seq<Date>, hours: seq<real>): seq<Record>
    requires |dates| == |approvals| == |hours| == |rows|
  {
    seq(|rows|, i requires 0 <= i < |rows| =>
      Record(Cell(rows[i], employeeCol), dates[i], hours[i],
             HrDetail(Cell(rows[i], codeCol), approvals[i])))
  }

  lemma {:induction false} HrRead(raw: RawTable, dateCol: nat, approvalCol: nat, hoursCol: nat,
                                  codeCol: nat, employeeCol: nat,
                                  dates: seq<Date>, approvals: seq<Date>, hours: seq<real>)
    requires ColumnIndex(RenamedHeader(raw.header, false), "Date") == Some(dateCol)
    requires ColumnIndex(RenamedHeader(raw.header, false), "Approval date") == Some(approvalCol)
    requires ColumnIndex(RenamedHeader(raw.header, false), "Hours") == Some(hoursCol)
    requires ColumnIndex(RenamedHeader(raw.header, false), "AA code") == Some(codeCol)
    requires ColumnIndex(RenamedHeader(raw.header, false), "Employee") == Some(employeeCol)
    requires |dates| == |raw.rows| && |approvals| == |raw.rows| && |hours| == |raw.rows|
    requires forall i :: 0 <= i < |raw.rows| ==> ParseDate(ColumnCells(raw.rows, dateCol)[i]) == Some(dates[i])
    requires forall i :: 0 <= i < |raw.rows| ==>
               ParseDate(ColumnCells(raw.rows, approvalCol)[i]) == Some(approvals[i])
    requires forall i :: 0 <= i < |raw.rows| ==> ParseDecimal(ColumnCells(raw.rows, hoursCol)[i]) == Some(hours[i])
    ensures Accepted(raw, false)
    ensures forall i :: 0 <= i < |raw.rows| ==>
              RowRead(raw, false, i, HrRecords(raw.rows, codeCol, employeeCol, dates, approvals, hours)[i])
  {
    var h := RenamedHeader(raw.header, false);
    assert HasColumns(raw, false) by {
      forall n | n in Needed(false)
        ensures n in h
      {
      }
    }
    CellAtColumn(raw, false, "Date", dateCol);
    CellAtColumn(raw, false, "Approval date", approvalCol);
    CellAtColumn(raw, false, "Hours", hoursCol);
    CellAtColumn(raw, false, "AA code", codeCol);
    CellAtColumn(raw, false, "Employee", employeeCol);
  }

  /**
   * The reader: renames the header, then converts column by column in the
   * order `read_and_preprocess` does, and gathers each row's record. The
   * file is read exactly when it has the needed columns and every strict
   * cell converts; each record is its row converted; an error names a
   * missing column or a cell that does not convert.
   */
  method Normalise(raw: RawTable, isSap: bool) returns (r: Result<seq<Record>, NormaliseError>)
    ensures r.Ok? <==> Accepted(raw, isSap)
    ensures r.Ok? ==> |r.value| == |raw.rows|
                      && forall i :: 0 <= i < |raw.rows| ==> RowRead(raw, isSap, i, r.value[i])
    ensures r.Err? ==> Explains(raw, isSap, r.error)
  {
    if isSap {
      r := NormaliseSap(raw);
    } else {
      r := NormaliseHr(raw);
    }
  }

  /** The SAP branch: `Date`, then `Hours` without its units, then the
      tolerant clock times, then the columns the aggregations read. */
  method NormaliseSap(raw: RawTable) returns (r: Result<seq<Record>, NormaliseError>)
    ensures r.Ok? <==> Accepted(raw, true)
    ensures r.Ok? ==> |r.value| == |raw.rows|
                      && forall i :: 0 <= i < |raw.rows| ==> RowRead(raw, true, i, r.value[i])
    ensures r.Err? ==> Explains(raw, true, r.error)
  {
    var header := RenamedHeader(raw.header, true);
    var rows := raw.rows;
    var dateCol := Lookup(header, "Date");
    if dateCol.Err? {
      MissingRefuses(raw, true, "Date");
      return Err(dateCol.error);
    }
    CellAtColumn(raw, true, "Date", dateCol.value);
    var dates := ConvertStrict("Date", ColumnCells(rows, dateCol.value), ParseDate);
    if dates.Err? {
      BadRowRefuses(raw, true, dates.error.row);
      return Err(dates.error);
    }
    var hoursCol := Lookup(header, "Hours");
    if hoursCol.Err? {
      MissingRefuses(raw, true, "Hours");
      return Err(hoursCol.error);
    }
    CellAtColumn(raw, true, "Hours", hoursCol.value);
    var hours := ConvertStrict("Hours", ColumnCells(rows, hoursCol.value), ParseSapHours);
    if hours.Err? {
      BadRowRefuses(raw, true, hours.error.row);
      return Err(hours.error);
    }
    var startCol := Lookup(header, "Start time");
    if startCol.Err? {
      MissingRefuses(raw, true, "Start time");
      return Err(startCol.error);
    }
    var endCol := Lookup(header, "End time");
    if endCol.Err? {
      MissingRefuses(raw, true, "End time");
      return Err(endCol.error);
    }
    var textCol := Lookup(header, "AA text");
    if textCol.Err? {
      MissingRefuses(raw, true, "AA text");
      return Err(textCol.error);
    }
    var receiverCol := Lookup(header, "Receiver");
    if receiverCol.Err? {
      MissingRefuses(raw, true, "Receiver");
      return Err(receiverCol.error);
    }
    var shortCol := Lookup(header, "Short Text");
    if shortCol.Err? {
      MissingRefuses(raw, true, "Short Text");
      return Err(shortCol.error);
    }
    var employeeCol := Lookup(header, "Employee");
    if employeeCol.Err? {
      MissingRefuses(raw, true, "Employee");
      return Err(employeeCol.error);
    }
    var cols := SapColumns(dateCol.value, hoursCol.value, startCol.value, endCol.value,
                           textCol.value, receiverCol.value, shortCol.value, employeeCol.value);
    SapRead(raw, cols, dates.value, hours.value);
    r := Ok(SapRecords(rows, cols, dates.value, hours.value));
  }

  /** The HR branch: `Date`, then `Approval date`, then the columns the
      aggregations read. */
  method NormaliseHr(raw: RawTable) returns (r: Result<seq<Record>, NormaliseError>)
    ensures r.Ok? <==> Accepted(raw, false)
    ensures r.Ok? ==> |r.value| == |raw.rows|
                      && forall i :: 0 <= i < |raw.rows| ==> RowRead(raw, false, i, r.value[i])
    ensures r.Err? ==> Explains(raw, false, r.error)
  {
    var header := RenamedHeader(raw.header, false);
    var rows := raw.rows;
    var dateCol := Lookup(header, "Date");
    if dateCol.Err? {
      MissingRefuses(raw, false, "Date");
      return Err(dateCol.error);
    }
    CellAtColumn(raw, false, "Date", dateCol.value);
    var dates := ConvertStrict("Date", ColumnCells(rows, dateCol.value), ParseDate);
    if dates.Err? {
      BadRowRefuses(raw, false, dates.error.row);
      return Err(dates.error);
    }
    var approvalCol := Lookup(header, "Approval date");
    if approvalCol.Err? {
      MissingRefuses(raw, false, "Approval date");
      return Err(approvalCol.error);
    }
    CellAtColumn(raw, false, "Approval date", approvalCol.value);
    var approvals := ConvertStrict("Approval date", ColumnCells(rows, approvalCol.value), ParseDate);
    if approvals.Err? {
      BadRowRefuses(raw, false, approvals.error.row);
      return Err(approvals.error);
    }
    var hoursCol := Lookup(header, "Hours");
    if hoursCol.Err? {
      MissingRefuses(raw, false, "Hours");
      return Err(hoursCol.error);
    }
    CellAtColumn(raw, false, "Hours", hoursCol.value);
    var hours := ConvertStrict("Hours", ColumnCells(rows, hoursCol.value), ParseDecimal);
    if hours.Err? {
      BadRowRefuses(raw, false, hours.error.row);
      return Err(hours.error);
    }
    var codeCol := Lookup(header, "AA code");
    if codeCol.Err? {
      MissingRefuses(raw, false, "AA code");
      return Err(codeCol.error);
    }
    var employeeCol := Lookup(header, "Employee");
    if employeeCol.Err? {
      MissingRefuses(raw, false, "Employee");
      return Err(employeeCol.error);
    }
    HrRead(raw, dateCol.value, approvalCol.value, hoursCol.value, codeCol.value, employeeCol.value,
           dates.value, approvals.value, hours.value);
    r := Ok(HrRecords(rows, codeCol.value, employeeCol.value, dates.value, approvals.value, hours.value));
  }
}
