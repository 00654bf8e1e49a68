/** `export_report_to_excel` (report/utils.py) reduced to its data: one
    row per stored good of each selected report (or one row for a report
    without goods), the report's number on its first row only. The
    workbook, its styling, the column widths and the HTTP response are not
    modelled. */
module FlatExport {
  import opened Wrappers
  import opened Text
  import opened RegistryModels
  import opened ReportModels
  import opened Sheet

  // ---------------------------------------------------------------------
  // What this export reads besides the report
  // ---------------------------------------------------------------------

  /** A witness of a report. */
  datatype Witness = Witness(fullname: Option<string>, address: Option<string>)

  /** A letter assigned to a task: its number, its date and the name of its
      letter-for-action row. */
  datatype Letter = Letter(number: string, date: Date, actionName: string)

  /** The related rows of a report that only this export shows. `letters`
      are the letters of the report's tasks, task after task; the two
      timestamps are written as the text given. */
  datatype Extras = Extras(
    vehicleBrand: Option<string>, transportCompany: Option<string>,
    discoveryBasis: string, discoveryMethod: Option<string>, language: string,
    witnesses: seq<Witness>, letters: seq<Letter>,
    createdAt: string, updatedAt: string)

  /** A selected report with what the export reads about it. */
  datatype Listed = Listed(report: Report, extras: Extras)

  // ---------------------------------------------------------------------
  // Header row
  // ---------------------------------------------------------------------

  /** The labels of columns 1-15: the report and its violation. */
  const LeadHeaders: seq<string> := [
    "T/b", "Ish Toplum Number", "Protocol Number", "Report date", "Customs Office",
    "Customs Point", "Violation Type", "Violation", "Passport Number", "Passport Issue Date",
    "Date of Birth", "Place of Birth", "Address", "Phone", "Nationality"]

  /** The labels of columns 16-21 as written: "Unit of Measurement" twice,
      so the reason column is labelled as a unit and the note column as the
      reason. */
  const GoodHeaders: seq<string> := [
    "Product Counter", "Product Name", "Amount", "Unit of Measurement", "Unit of Measurement",
    "Reason for Rule Violation"]

  /** The labels of columns 22-43. */
  const TrailHeaders: seq<string> := [
    "Entry/Exit/Transit", "From Country", "To Country",
    "Vehicle Brand", "Car Number", "Transport Company Name", "Basis for Discovery",
    "Method of Discovery", "Administration Codexes", "Customs Officer", "Position",
    "Military Name", "Language of Work Conducted", "Witness Full Names", "Witness Address",
    "Assigned Task Manat", "Assigned Task Workgroup", "Assigned Letter Number",
    "Assigned Letter Date", "Letter for Action", "Created At", "Updated At"]

  /** The header row as written. */
  const Headers: seq<string> := LeadHeaders + GoodHeaders + TrailHeaders

  /** The labels of columns 16-21 naming what the rows hold. */
  const CorrectedGoodHeaders: seq<string> := [
    "Product Counter", "Product Name", "Amount", "Unit of Measurement",
    "Reason for Rule Violation", "Note"]

  /** The header row with the good columns labelled by what they hold. */
  const CorrectedHeaders: seq<string> := LeadHeaders + CorrectedGoodHeaders + TrailHeaders

  /** The number of columns, and the positions of the good columns. */
  const Width: nat := 43
  const CounterColumn: nat := 15
  const ReasonColumn: nat := 19
  const NoteColumn: nat := 20

  // ---------------------------------------------------------------------
  // Columns
  // ---------------------------------------------------------------------

  /** Column 8: the joined name parts for an individual or an official, the
      company for a legal entity, nothing for any other type. The type is
      compared as stored, without case folding. */
  function ViolatorColumn(v: Violation): string {
    if v.violationType == IndividualCode || v.violationType == OfficialCode then FullName(v)
    else if v.violationType == LegalEntityCode then OrEmpty(v.companyName)
    else ""
  }

  /** Column 13: `violator_address or address`, so an empty violator
      address falls back to the company address. */
  function AddressColumn(v: Violation): string {
    if Truthy(v.violatorAddress) then v.violatorAddress.value else OrEmpty(v.address)
  }

  function DateText(d: Option<Date>): string {
    if d.Some? then FormatDate(d.value) else ""
  }

  /** Columns 2-15: the report and its violation. */
  function LeadCells(r: Report): (c: seq<Cell>)
    ensures |c| == 14
  {
    var v := r.violation;
    [Text(r.ishToplumNumber), OptText(r.protocolNumber), Text(DateText(r.reportDate)),
     Text(r.officeName), Text(r.pointName), Text(v.violationType), Text(ViolatorColumn(v)),
     Text(OrEmpty(v.passportNumber)), Text(DateText(v.passportIssueDate)),
     Text(DateText(v.dateOfBirth)), Text(OrEmpty(v.placeOfBirth)), Text(AddressColumn(v)),
     Text(OrEmpty(v.phone)), Text(if v.nationality.Some? then v.nationality.value.name else "")]
  }

  /** The goods a report is written with: its stored goods, or a single
      missing good. */
  function Products(r: Report): (ps: seq<Option<Good>>)
    ensures |ps| == RowsOf(r)
    ensures r.goods == [] ==> ps == [None]
    ensures r.goods != [] ==> forall i :: 0 <= i < |ps| ==> ps[i] == Some(r.goods[i])
  {
    if r.goods == [] then [None]
    else seq(|r.goods|, i requires 0 <= i < |r.goods| => Some(r.goods[i]))
  }

  /** Columns 16-21: the counter and the good's product, amount, unit,
      reason and note. */
  function ProductCells(idx: nat, product: Option<Good>): (c: seq<Cell>)
    ensures |c| == 6
  {
    match product
    case None => [Int(idx + 1), Blank, Blank, Blank, Blank, Blank]
    case Some(g) =>
      [Int(idx + 1), Text(g.productName), Money(g.amountCents), Text(g.unitName),
       Text(OrEmpty(g.reasonName)), OptText(g.note)]
  }

  function WitnessNames(ws: seq<Witness>): (r: seq<string>)
    ensures |r| == |ws|
  {
    seq(|ws|, i requires 0 <= i < |ws| => if Truthy(ws[i].fullname) then ws[i].fullname.value else " ")
  }

  function WitnessAddresses(ws: seq<Witness>): (r: seq<string>)
    ensures |r| == |ws|
  {
    seq(|ws|, i requires 0 <= i < |ws| => if Truthy(ws[i].address) then ws[i].address.value else " ")
  }

  function FineTexts(ts: seq<AssignedTask>): (r: seq<string>)
    ensures |r| == |ts|
  {
    seq(|ts|, i requires 0 <= i < |ts| => FineText(ts[i].fineCents))
  }

  function WorkgroupNames(ts: seq<AssignedTask>): (r: seq<string>)
    ensures |r| == |ts|
  {
    seq(|ts|, i requires 0 <= i < |ts| => ts[i].workgroupName)
  }

  function LetterNumbers(ls: seq<Letter>): (r: seq<string>)
    ensures |r| == |ls|
  {
    seq(|ls|, i requires 0 <= i < |ls| => ls[i].number)
  }

  function LetterDates(ls: seq<Letter>): (r: seq<string>)
    ensures |r| == |ls|
  {
    seq(|ls|, i requires 0 <= i < |ls| => FormatDate(ls[i].date))
  }

  function LetterActions(ls: seq<Letter>): (r: seq<string>)
    ensures |r| == |ls|
  {
    seq(|ls|, i requires 0 <= i < |ls| => ls[i].actionName)
  }

  /** Columns 22-43: the journey, the codex articles, the officer, the
      witnesses, the tasks, the letters and the timestamps. */
  function TrailCells(r: Report, x: Extras): (c: seq<Cell>)
    ensures |c| == 22
  {
    [Text(r.entryExitTransit),
     Text(if r.fromCountry.Some? then r.fromCountry.value.name else ""),
     Text(if r.toCountry.Some? then r.toCountry.value.name else ""),
     Text(OrEmpty(x.vehicleBrand)), OptText(r.carNumber), Text(OrEmpty(x.transportCompany)),
     Text(x.discoveryBasis), Text(OrEmpty(x.discoveryMethod)), Text(Join(", ", r.codexNames)),
     Text(Strip(r.officer.name + " " + r.officer.surname)),
     Text(OrEmpty(r.officer.position)), Text(OrEmpty(r.officer.militaryName)),
     Text(x.language),
     Text(Join(", ", WitnessNames(x.witnesses))), Text(Join(", ", WitnessAddresses(x.witnesses))),
     Text(Join(", ", FineTexts(r.tasks))), Text(Join(", ", WorkgroupNames(r.tasks))),
     Text(Join(", ", LetterNumbers(x.letters))), Text(Join(", ", LetterDates(x.letters))),
     Text(Join(", ", LetterActions(x.letters))),
     Text(x.createdAt), Text(x.updatedAt)]
  }

  /** One `row` list: the report's number on its first row only. */
  function FlatRow(l: Listed, index: nat, idx: nat, product: Option<Good>): (row: seq<Cell>)
    ensures |row| == Width
    ensures row[0] == if idx == 0 then Int(index) else Blank
    ensures row[CounterColumn..NoteColumn + 1] == ProductCells(idx, product)
  {
    var first: seq<Cell> := [if idx == 0 then Int(index) else Blank];
    var lead, goods, trail := LeadCells(l.report), ProductCells(idx, product), TrailCells(l.report, l.extras);
    FourParts(first, lead, goods, trail);
    first + lead + goods + trail
  }

  /** The rows of the report numbered `index`. */
  function FlatReportRows(l: Listed, index: nat): (rows: seq<seq<Cell>>)
    ensures |rows| == RowsOf(l.report)
  {
    var ps := Products(l.report);
    seq(|ps|, idx requires 0 <= idx < |ps| => FlatRow(l, index, idx, ps[idx]))
  }

  /** The rows of each selected report; report `i` is numbered `i + 1`. */
  function FlatBlocks(ls: seq<Listed>): (bs: seq<seq<seq<Cell>>>)
    ensures |bs| == |ls|
  {
    seq(|ls|, i requires 0 <= i < |ls| => FlatReportRows(ls[i], i + 1))
  }

  /** The header row as cells. */
  function HeaderRow(hs: seq<string>): (row: seq<Cell>)
    ensures |row| == |hs|
  {
    seq(|hs|, i requires 0 <= i < |hs| => Text(hs[i]))
  }

  /** The whole sheet as written: the header row, then the data rows. */
  function FlatSheet(ls: seq<Listed>): seq<seq<Cell>> {
    [HeaderRow(Headers)] + Concat(FlatBlocks(ls))
  }

  /** The same sheet under the corrected header row. */
  function CorrectedFlatSheet(ls: seq<Listed>): seq<seq<Cell>> {
    [HeaderRow(CorrectedHeaders)] + Concat(FlatBlocks(ls))
  }

  // ---------------------------------------------------------------------
  // The export
  // ---------------------------------------------------------------------

  /** `export_report_to_excel` without the workbook. After the loop the
      height of `last_row` is set, and `last_row` is only bound once a row
      has been written: an empty selection raises, modelled as None. */
  method ExportReportToExcel(queryset: seq<Listed>) returns (sheet: Option<seq<seq<Cell>>>)
    ensures queryset == [] <==> sheet.None?
    ensures sheet.Some? ==> sheet.value == FlatSheet(queryset)
  {
    var rows := [HeaderRow(Headers)];
    var index := 1;
    var lastRow: Option<nat> := None;
    while index <= |queryset|
      invariant 1 <= index <= |queryset| + 1
      invariant rows == [HeaderRow(Headers)] + Concat(FlatBlocks(queryset)[..index - 1])
      invariant lastRow.Some? <==> index > 1
    {
      ghost var before := rows;
      rows := WriteFlatReport(queryset[index - 1], index, rows);
      NextBlock([HeaderRow(Headers)], FlatBlocks(queryset), index - 1, before, rows);
      lastRow := Some(|rows|);
      index := index + 1;
    }
    if lastRow.None? {
      return None;
    }
    assert FlatBlocks(queryset)[..index - 1] == FlatBlocks(queryset);
    sheet := Some(rows);
  }

  /** The body of the loop over the selection: the inner loop over the
      report's products. */
  method WriteFlatReport(l: Listed, index: nat, rows0: seq<seq<Cell>>) returns (rows: seq<seq<Cell>>)
    ensures rows == rows0 + FlatReportRows(l, index)
  {
    rows := rows0;
    var products := Products(l.report);
    ghost var own := FlatReportRows(l, index);
    var idx := 0;
    while idx < |products|
      invariant 0 <= idx <= |products|
      invariant rows == rows0 + own[..idx]
    {
      var row := FlatRow(l, index, idx, products[idx]);
      AppendNext(rows0, own, idx);
      rows := rows + [row];
      idx := idx + 1;
    }
    assert own[..idx] == own;
  }

  // ---------------------------------------------------------------------
  // Properties
  // ---------------------------------------------------------------------

  /** Every data row has one cell per column. */
  lemma DataRowWidth(ls: seq<Listed>, k: nat)
    requires k < |Concat(FlatBlocks(ls))|
    ensures |Concat(FlatBlocks(ls))[k]| == Width
  {
    var bs := FlatBlocks(ls);
    forall i, j | 0 <= i < |bs| && 0 <= j < |bs[i]|
      ensures |bs[i][j]| == Width
    {
    }
    UniformWidth(bs, Width, k);
  }

  /** Every row of the sheet, the header row included, has one cell per
      header. */
  lemma RowsMatchHeaders(ls: seq<Listed>, k: nat)
    requires k < |FlatSheet(ls)|
    ensures |FlatSheet(ls)[k]| == |Headers|
  {
    HeadersMislabelGoods();
    if k > 0 {
      DataRowWidth(ls, k - 1);
    }
  }

  /** The same holds under the corrected header row. */
  lemma CorrectedRowsMatchHeaders(ls: seq<Listed>, k: nat)
    requires k < |CorrectedFlatSheet(ls)|
    ensures |CorrectedFlatSheet(ls)[k]| == |CorrectedHeaders|
  {
    CorrectedHeadersLabelGoods();
    HeadersMislabelGoods();
    if k > 0 {
      DataRowWidth(ls, k - 1);
    }
  }

  /** Row `idx` of a report shows its good `idx`, or empty good columns
      when it has no goods; only its first row carries the number. */
  lemma ReportRowsShowGoods(l: Listed, index: nat, idx: nat)
    requires idx < RowsOf(l.report)
    ensures var row := FlatReportRows(l, index)[idx];
      |row| == Width
      && row[0] == (if idx == 0 then Int(index) else Blank)
      && row[CounterColumn] == Int(idx + 1)
      && (l.report.goods != [] ==>
            row[16] == Text(l.report.goods[idx].productName)
            && row[17] == Money(l.report.goods[idx].amountCents)
            && row[NoteColumn] == OptText(l.report.goods[idx].note))
      && (l.report.goods == [] ==> row[16] == Blank && row[NoteColumn] == Blank)
  {
    var ps := Products(l.report);
    var row := FlatReportRows(l, index)[idx];
    assert row == FlatRow(l, index, idx, ps[idx]);
    var cells := ProductCells(idx, ps[idx]);
    assert row[CounterColumn] == cells[0] && row[16] == cells[1] && row[17] == cells[2];
    assert row[NoteColumn] == cells[5];
  }

  /** The first row of report `i` starts right after the rows of the
      reports before it and carries the number `i + 1`. */
  lemma ReportNumbering(ls: seq<Listed>, i: nat)
    requires i < |ls|
    ensures var rows := Concat(FlatBlocks(ls));
      var at := |Concat(FlatBlocks(ls)[..i])|;
      at < |rows| && |rows[at]| == Width && rows[at][0] == Int(i + 1)
  {
    ConcatAt(FlatBlocks(ls), i, 0);
  }

  /** The data rows number as many as the selected reports' goods, a report
      without goods counting once. */
  lemma {:induction false} FlatRowsCount(ls: seq<Listed>, n: nat)
    requires n <= |ls|
    ensures |Concat(FlatBlocks(ls)[..n])| == TotalRows(ReportsOf(ls)[..n])
  {
    if n > 0 {
      FlatRowsCount(ls, n - 1);
      ConcatStep(FlatBlocks(ls), n - 1);
      TotalRowsStep(ReportsOf(ls), n);
    }
  }

  function ReportsOf(ls: seq<Listed>): (rs: seq<Report>)
    ensures |rs| == |ls| && forall i :: 0 <= i < |ls| ==> rs[i] == ls[i].report
  {
    seq(|ls|, i requires 0 <= i < |ls| => ls[i].report)
  }

  /** An empty violator address falls back to the violation's address;
      a non-empty one is shown as it is. */
  lemma AddressFallback(v: Violation)
    ensures Truthy(v.violatorAddress) ==> AddressColumn(v) == v.violatorAddress.value
    ensures v.violatorAddress == Some("") ==> AddressColumn(v) == OrEmpty(v.address)
    ensures v.violatorAddress.None? && v.address.None? ==> AddressColumn(v) == ""
  {
  }

  /** Column 8 of every row of a report: the name parts (name, surname,
      father name) of an individual or an official, the company of a legal
      entity, and nothing for any other stored type. */
  lemma ViolatorColumnByType(l: Listed, index: nat, idx: nat, product: Option<Good>)
    ensures var v, row := l.report.violation, FlatRow(l, index, idx, product);
      (IsPersonCode(v.violationType) ==> row[7] == Text(FullName(v)))
      && (v.violationType == LegalEntityCode ==> row[7] == Text(OrEmpty(v.companyName)))
      && (v.violationType !in {LegalEntityCode, IndividualCode, OfficialCode} ==> row[7] == Text(""))
  {
    var lead := LeadCells(l.report);
    assert FlatRow(l, index, idx, product)[7] == lead[6];
  }

  // ---------------------------------------------------------------------
  // The header labels
  // ---------------------------------------------------------------------

  /** As written, the unit label is repeated and the reason label sits over
      the note column. */
  lemma HeadersMislabelGoods()
    ensures |Headers| == Width
    ensures Headers[ReasonColumn] == Headers[ReasonColumn - 1] == "Unit of Measurement"
    ensures Headers[NoteColumn] == "Reason for Rule Violation"
    ensures !Unique(Headers[CounterColumn..NoteColumn + 1])
  {
    GoodLabels(GoodHeaders);
    assert GoodHeaders[3] == GoodHeaders[4];
  }

  /** Corrected, the good columns carry six distinct labels naming what
      the rows hold, and every other label is unchanged. */
  lemma CorrectedHeadersLabelGoods()
    ensures |CorrectedHeaders| == |Headers|
    ensures CorrectedHeaders[ReasonColumn] == "Reason for Rule Violation"
    ensures CorrectedHeaders[NoteColumn] == "Note"
    ensures Unique(CorrectedHeaders[CounterColumn..NoteColumn + 1])
    ensures CorrectedHeaders[..ReasonColumn] == Headers[..ReasonColumn]
    ensures CorrectedHeaders[NoteColumn + 1..] == Headers[NoteColumn + 1..]
  {
    GoodLabels(GoodHeaders);
    GoodLabels(CorrectedGoodHeaders);
    var hs := CorrectedGoodHeaders;
    assert CorrectedHeaders[..ReasonColumn] == LeadHeaders + GoodHeaders[..4];
    assert Headers[..ReasonColumn] == LeadHeaders + GoodHeaders[..4];
    assert |hs[0]| == 15 && |hs[1]| == 12 && |hs[2]| == 6 && |hs[3]| == 19 && |hs[4]| == 25 && |hs[5]| == 4;
  }

  /** Good `idx` of report `i` sits on data row `at` of the sheet, its
      reason in column 20 and its note in column 21. */
  lemma GoodOnSheet(ls: seq<Listed>, i: nat, idx: nat) returns (at: nat)
    requires i < |ls| && idx < |ls[i].report.goods|
    ensures 0 < at < |FlatSheet(ls)| && |FlatSheet(ls)[at]| == Width
    ensures FlatSheet(ls)[at][ReasonColumn] == Text(OrEmpty(ls[i].report.goods[idx].reasonName))
    ensures FlatSheet(ls)[at][NoteColumn] == OptText(ls[i].report.goods[idx].note)
    ensures CorrectedFlatSheet(ls)[at] == FlatSheet(ls)[at]
  {
    var bs := FlatBlocks(ls);
    ConcatAt(bs, i, idx);
    at := 1 + |Concat(bs[..i])| + idx;
    var g := ls[i].report.goods[idx];
    var row := FlatRow(ls[i], i + 1, idx, Some(g));
    assert bs[i][idx] == row;
    var cells := ProductCells(idx, Some(g));
    assert row[ReasonColumn] == cells[4] && row[NoteColumn] == cells[5];
  }

  /** In the sheet as written, the reasons sit under a second "Unit of
      Measurement" and the notes under "Reason for Rule Violation". */
  lemma ReasonHeaderOverNotes(ls: seq<Listed>, i: nat, idx: nat) returns (at: nat)
    requires i < |ls| && idx < |ls[i].report.goods|
    ensures 0 < at < |FlatSheet(ls)| && |FlatSheet(ls)[at]| == Width
    ensures FlatSheet(ls)[0][ReasonColumn] == Text("Unit of Measurement")
         && FlatSheet(ls)[at][ReasonColumn] == Text(OrEmpty(ls[i].report.goods[idx].reasonName))
    ensures FlatSheet(ls)[0][NoteColumn] == Text("Reason for Rule Violation")
         && FlatSheet(ls)[at][NoteColumn] == OptText(ls[i].report.goods[idx].note)
  {
    at := GoodOnSheet(ls, i, idx);
    HeadersMislabelGoods();
  }

  /** Under the corrected header row, the reasons sit under "Reason for
      Rule Violation" and the notes under "Note"; the data rows are those
      of the sheet as written. */
  lemma CorrectedSheetLabelsGoods(ls: seq<Listed>, i: nat, idx: nat) returns (at: nat)
    requires i < |ls| && idx < |ls[i].report.goods|
    ensures 0 < at < |CorrectedFlatSheet(ls)| && |CorrectedFlatSheet(ls)[at]| == Width
    ensures CorrectedFlatSheet(ls)[0][ReasonColumn] == Text("Reason for Rule Violation")
         && CorrectedFlatSheet(ls)[at][ReasonColumn] == Text(OrEmpty(ls[i].report.goods[idx].reasonName))
    ensures CorrectedFlatSheet(ls)[0][NoteColumn] == Text("Note")
         && CorrectedFlatSheet(ls)[at][NoteColumn] == OptText(ls[i].report.goods[idx].note)
    ensures CorrectedFlatSheet(ls)[1..] == FlatSheet(ls)[1..]
  {
    at := GoodOnSheet(ls, i, idx);
    CorrectedHeadersLabelGoods();
  }

  /** Six labels between the lead and the trail occupy columns 16-21. */
  lemma GoodLabels(goods: seq<string>)
    requires |goods| == 6
    ensures var hs := LeadHeaders + goods + TrailHeaders;
      |hs| == Width && hs[..CounterColumn] == LeadHeaders
      && hs[CounterColumn..NoteColumn + 1] == goods && hs[NoteColumn + 1..] == TrailHeaders
  {
    var hs := LeadHeaders + goods + TrailHeaders;
    assert |LeadHeaders| == 15 && |TrailHeaders| == 22;
    assert hs[..CounterColumn] == LeadHeaders;
    assert hs[CounterColumn..NoteColumn + 1] == goods;
    assert hs[NoteColumn + 1..] == TrailHeaders;
  }
}
