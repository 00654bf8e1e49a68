/** `export_grouped_report` (report/utils.py) reduced to its data: the
    selected reports are grouped by violation, de-duplicated with a set of
    seen primary keys, ordered by group size and laid out as sheet rows.
    The workbook, its styling and the HTTP response are not modelled. */
module GroupedExport {
  import opened Wrappers
  import opened Text
  import opened RegistryModels
  import opened ReportModels
  import opened Sheet

  // ---------------------------------------------------------------------
  // Grouping by violation
  // ---------------------------------------------------------------------

  /** One entry of `grouped_data`. */
  datatype Group = Group(
    violationType: string, fullname: string, dob: string, passport: string,
    nationality: string, address: Option<string>, count: nat, reports: seq<Report>)

  /** `queryset.filter(violation__id=id)`, in queryset order. */
  function Related(reports: seq<Report>, id: nat): (r: seq<Report>)
    ensures forall x :: x in r <==> x in reports && x.violationId == id
  {
    if reports == [] then []
    else
      var init, last := reports[..|reports| - 1], reports[|reports| - 1];
      assert reports == init + [last];
      Related(init, id) + (if last.violationId == id then [last] else [])
  }

  /** `[r for r in related_reports if r.pk not in seen_reports]`. */
  function Unseen(related: seq<Report>, seen: set<nat>): (r: seq<Report>)
    ensures forall x :: x in r <==> x in related && x.pk !in seen
  {
    if related == [] then []
    else
      var init, last := related[..|related| - 1], related[|related| - 1];
      assert related == init + [last];
      Unseen(init, seen) + (if last.pk !in seen then [last] else [])
  }

  /** The primary keys of some reports. */
  function PksOf(reports: seq<Report>): set<nat> {
    set x | x in reports :: x.pk
  }

  /** The "Full Name of Offender" cell of a group: for a legal entity
      (compared case-insensitively) the company name and, on a second line,
      its head; otherwise surname, name and father name, stripped. */
  function GroupFullname(v: Violation): string {
    if Lower(v.violationType) == LegalEntityCode then
      OrEmpty(v.companyName) + "\n\U{00DD}olba\U{015F}\U{00E7}ysy: " + OrEmpty(v.companyBossFullname)
    else
      Strip(OrEmpty(v.violatorSurname) + " " + OrEmpty(v.violatorName) + " " + OrEmpty(v.fatherName))
  }

  /** The group built from the unseen reports of one violation; the
      violation columns come from the first of them. */
  function MakeGroup(unique: seq<Report>): (g: Group)
    requires unique != []
  {
    var v := unique[0].violation;
    Group(v.violationType, GroupFullname(v),
          if v.dateOfBirth.Some? then FormatDate(v.dateOfBirth.value) else "",
          OrEmpty(v.passportNumber),
          if v.nationality.Some? then v.nationality.value.name else "",
          if Lower(v.violationType) == LegalEntityCode then v.address else v.violatorAddress,
          |unique|, unique)
  }

  /** For any type other than a legal entity the cell lists surname, name
      and father name (the reverse of `full_name`'s name-first order);
      between visible ends nothing is stripped, and a missing name leaves
      two spaces. */
  lemma GroupFullnameOfPerson(v: Violation)
    requires Lower(v.violationType) != LegalEntityCode
    requires Truthy(v.violatorSurname) && !IsSpace(v.violatorSurname.value[0])
    requires Truthy(v.fatherName) && !IsSpace(v.fatherName.value[|v.fatherName.value| - 1])
    ensures GroupFullname(v) ==
      v.violatorSurname.value + " " + OrEmpty(v.violatorName) + " " + v.fatherName.value
  {
    var surname, father := v.violatorSurname.value, v.fatherName.value;
    var s := surname + " " + OrEmpty(v.violatorName) + " " + father;
    assert s[0] == surname[0];
    assert s[|s| - 1] == father[|father| - 1];
  }

  /** `grouped_data` and `seen_reports` together. */
  datatype GroupState = GroupState(groups: seq<Group>, seen: set<nat>)

  /** One pass of the grouping loop for violation `id`. */
  function GroupStep(reports: seq<Report>, st: GroupState, id: nat): GroupState {
    var unique := Unseen(Related(reports, id), st.seen);
    if unique == [] then st
    else GroupState(st.groups + [MakeGroup(unique)], st.seen + PksOf(unique))
  }

  /** The state after the grouping loop has visited `ids` in order. The ids
      are those of `values_list('violation').distinct()`, which may repeat
      an id, so no assumption is made about them. */
  function Grouping(reports: seq<Report>, ids: seq<nat>): GroupState {
    if ids == [] then GroupState([], {})
    else GroupStep(reports, Grouping(reports, ids[..|ids| - 1]), ids[|ids| - 1])
  }

  /** Step 1 of `export_grouped_report`. */
  method GroupReports(reports: seq<Report>, violations: seq<nat>) returns (groupedData: seq<Group>)
    ensures groupedData == Grouping(reports, violations).groups
  {
    groupedData := [];
    var seenReports: set<nat> := {};
    var k := 0;
    while k < |violations|
      invariant 0 <= k <= |violations|
      invariant GroupState(groupedData, seenReports) == Grouping(reports, violations[..k])
    {
      var violationId := violations[k];
      var relatedReports := Related(reports, violationId);
      if relatedReports != [] {
        var uniqueReports := Unseen(relatedReports, seenReports);
        if uniqueReports != [] {
          var group := BuildGroup(uniqueReports);
          groupedData := groupedData + [group];
          seenReports := seenReports + PksOf(uniqueReports);
        }
      }
      GroupingStep(reports, violations, k);
      k := k + 1;
    }
    assert violations[..|violations|] == violations;
  }

  /** The body of the loop for a violation with unseen reports: the
      violation columns come from the first of them. */
  method BuildGroup(uniqueReports: seq<Report>) returns (group: Group)
    requires uniqueReports != []
    ensures group == MakeGroup(uniqueReports)
  {
    var violation := uniqueReports[0].violation;
    var violationType := violation.violationType;
    var fullname, address;
    if Lower(violationType) == LegalEntityCode {
      fullname := OrEmpty(violation.companyName) + "\n\U{00DD}olba\U{015F}\U{00E7}ysy: "
                  + OrEmpty(violation.companyBossFullname);
      address := violation.address;
    } else {
      fullname := Strip(OrEmpty(violation.violatorSurname) + " " + OrEmpty(violation.violatorName)
                        + " " + OrEmpty(violation.fatherName));
      address := violation.violatorAddress;
    }
    var dob := if violation.dateOfBirth.Some? then FormatDate(violation.dateOfBirth.value) else "";
    var passport := OrEmpty(violation.passportNumber);
    var nationality := if violation.nationality.Some? then violation.nationality.value.name else "";
    var reportCount := |uniqueReports|;
    group := Group(violationType, fullname, dob, passport, nationality, address, reportCount, uniqueReports);
  }

  lemma GroupingStep(reports: seq<Report>, ids: seq<nat>, k: nat)
    requires k < |ids|
    ensures Grouping(reports, ids[..k + 1]) == GroupStep(reports, Grouping(reports, ids[..k]), ids[k])
  {
    assert ids[..k + 1][..k] == ids[..k];
  }

  // ---------------------------------------------------------------------
  // Properties of the grouping
  // ---------------------------------------------------------------------

  /** A group holds at least one report, its count is the number of its
      reports, and all of them are selected reports of one violation from
      the list. */
  predicate WellFormedGroup(g: Group, reports: seq<Report>, ids: seq<nat>) {
    g.reports != [] && g.count == |g.reports| && g.reports[0].violationId in ids
    && forall x :: x in g.reports ==> x in reports && x.violationId == g.reports[0].violationId
  }

  /** Every group the loop builds is well formed. */
  lemma GroupsWellFormed(reports: seq<Report>, ids: seq<nat>)
    ensures var gs := Grouping(reports, ids).groups;
      forall i :: 0 <= i < |gs| ==> WellFormedGroup(gs[i], reports, ids)
  {
    forall i | 0 <= i < |Grouping(reports, ids).groups|
      ensures WellFormedGroup(Grouping(reports, ids).groups[i], reports, ids)
    {
      GroupWellFormed(reports, ids, i);
    }
  }

  lemma {:induction false} GroupWellFormed(reports: seq<Report>, ids: seq<nat>, i: nat)
    requires i < |Grouping(reports, ids).groups|
    ensures WellFormedGroup(Grouping(reports, ids).groups[i], reports, ids)
  {
    var init, id := ids[..|ids| - 1], ids[|ids| - 1];
    var prev := Grouping(reports, init);
    var gs := Grouping(reports, ids).groups;
    if i < |prev.groups| {
      GroupWellFormed(reports, init, i);
      assert gs[i] == prev.groups[i];
      assert prev.groups[i].reports[0].violationId in init;
    } else {
      var unique := Unseen(Related(reports, id), prev.seen);
      assert gs == prev.groups + [MakeGroup(unique)];
      NewGroupWellFormed(reports, ids, unique);
    }
  }

  lemma NewGroupWellFormed(reports: seq<Report>, ids: seq<nat>, unique: seq<Report>)
    requires ids != [] && unique != []
    requires forall x :: x in unique ==> x in reports && x.violationId == ids[|ids| - 1]
    ensures WellFormedGroup(MakeGroup(unique), reports, ids)
  {
    assert unique[0] in unique;
  }

  /** The union of the groups' primary keys. */
  function GroupedPks(gs: seq<Group>): set<nat> {
    if gs == [] then {} else GroupedPks(gs[..|gs| - 1]) + PksOf(gs[|gs| - 1].reports)
  }

  /** `seen_reports` is exactly the set of primary keys placed in groups. */
  lemma {:induction false} SeenIsGrouped(reports: seq<Report>, ids: seq<nat>)
    ensures Grouping(reports, ids).seen == GroupedPks(Grouping(reports, ids).groups)
  {
    if ids != [] {
      var init := ids[..|ids| - 1];
      SeenIsGrouped(reports, init);
      var prev := Grouping(reports, init);
      var st := Grouping(reports, ids);
      if st != prev {
        assert st.groups[..|st.groups| - 1] == prev.groups;
      }
    }
  }

  /** No primary key lands in two groups: each report appears at most once
      in the export. */
  lemma {:induction false} GroupsDisjoint(reports: seq<Report>, ids: seq<nat>)
    ensures var gs := Grouping(reports, ids).groups;
      forall i, j :: 0 <= i < j < |gs| ==> PksOf(gs[i].reports) !! PksOf(gs[j].reports)
  {
    if ids != [] {
      var init := ids[..|ids| - 1];
      GroupsDisjoint(reports, init);
      var prev := Grouping(reports, init);
      var gs := Grouping(reports, ids).groups;
      if gs != prev.groups {
        var unique := Unseen(Related(reports, ids[|ids| - 1]), prev.seen);
        assert gs == prev.groups + [MakeGroup(unique)];
        SeenIsGrouped(reports, init);
        forall i, j | 0 <= i < j < |gs|
          ensures PksOf(gs[i].reports) !! PksOf(gs[j].reports)
        {
          assert gs[i] == prev.groups[i];
          if j == |prev.groups| {
            GroupedPksContains(prev.groups, i);
            assert gs[j].reports == unique;
          } else {
            assert gs[j] == prev.groups[j];
          }
        }
      }
    }
  }

  lemma {:induction false} GroupedPksContains(gs: seq<Group>, i: nat)
    requires i < |gs|
    ensures PksOf(gs[i].reports) <= GroupedPks(gs)
  {
    if i < |gs| - 1 {
      assert gs[..|gs| - 1][i] == gs[i];
      GroupedPksContains(gs[..|gs| - 1], i);
    }
  }

  /** Every selected report whose violation is listed is in some group:
      its primary key ends up seen. */
  lemma {:induction false} GroupingCoversListed(reports: seq<Report>, ids: seq<nat>)
    ensures forall x :: x in reports && x.violationId in ids ==> x.pk in Grouping(reports, ids).seen
  {
    if ids != [] {
      var init, id := ids[..|ids| - 1], ids[|ids| - 1];
      GroupingCoversListed(reports, init);
      var prev := Grouping(reports, init);
      assert prev.seen <= Grouping(reports, ids).seen;
      forall x | x in reports && x.violationId in ids
        ensures x.pk in Grouping(reports, ids).seen
      {
        if x.violationId != id {
          assert x.violationId in init;
        } else if x.pk !in prev.seen {
          assert x in Unseen(Related(reports, id), prev.seen);
        }
      }
    }
  }

  // ---------------------------------------------------------------------
  // Ordering: grouped_data.sort(key=itemgetter('count'), reverse=True)
  // ---------------------------------------------------------------------

  predicate SortedByCountDesc(gs: seq<Group>) {
    forall i, j :: 0 <= i < j < |gs| ==> gs[i].count >= gs[j].count
  }

  /** Places `g` after every group whose count is not smaller. */
  function InsertByCount(sorted: seq<Group>, g: Group): (r: seq<Group>)
    ensures multiset(r) == multiset(sorted) + multiset{g}
  {
    if sorted == [] || sorted[|sorted| - 1].count >= g.count then sorted + [g]
    else
      var init := sorted[..|sorted| - 1];
      assert sorted == init + [sorted[|sorted| - 1]];
      InsertByCount(init, g) + [sorted[|sorted| - 1]]
  }

  /** Python's sort with `reverse=True`: by count, largest first, and stable. */
  function SortByCount(gs: seq<Group>): (r: seq<Group>)
    ensures multiset(r) == multiset(gs)
  {
    if gs == [] then []
    else
      assert gs == gs[..|gs| - 1] + [gs[|gs| - 1]];
      InsertByCount(SortByCount(gs[..|gs| - 1]), gs[|gs| - 1])
  }

  lemma {:induction false} InsertKeepsSorted(sorted: seq<Group>, g: Group)
    requires SortedByCountDesc(sorted)
    ensures SortedByCountDesc(InsertByCount(sorted, g))
  {
    if sorted != [] && sorted[|sorted| - 1].count < g.count {
      var init, last := sorted[..|sorted| - 1], sorted[|sorted| - 1];
      InsertKeepsSorted(init, g);
      var t := InsertByCount(init, g);
      InsertMembers(init, g);
      assert forall x :: x in init ==> x.count >= last.count;
      var r := t + [last];
      assert InsertByCount(sorted, g) == r;
      forall i, j | 0 <= i < j < |r|
        ensures r[i].count >= r[j].count
      {
        if j < |t| {
          assert r[i] == t[i] && r[j] == t[j];
        } else {
          assert t[i] in t;
        }
      }
    }
  }

  lemma InsertMembers(sorted: seq<Group>, g: Group)
    ensures forall x :: x in InsertByCount(sorted, g) ==> x in sorted || x == g
  {
    var t := InsertByCount(sorted, g);
    forall x | x in t
      ensures x in sorted || x == g
    {
      assert x in multiset(t);
    }
  }

  /** The groups come out largest first. */
  lemma {:induction false} SortByCountSorted(gs: seq<Group>)
    ensures SortedByCountDesc(SortByCount(gs))
  {
    if gs != [] {
      SortByCountSorted(gs[..|gs| - 1]);
      InsertKeepsSorted(SortByCount(gs[..|gs| - 1]), gs[|gs| - 1]);
    }
  }

  /** The groups of one size, in order. */
  function WithCount(gs: seq<Group>, c: nat): seq<Group> {
    if gs == [] then []
    else WithCount(gs[..|gs| - 1], c) + (if gs[|gs| - 1].count == c then [gs[|gs| - 1]] else [])
  }

  lemma {:induction false} WithCountAppend(a: seq<Group>, b: seq<Group>, c: nat)
    ensures WithCount(a + b, c) == WithCount(a, c) + WithCount(b, c)
  {
    if b != [] {
      assert (a + b)[..|a + b| - 1] == a + b[..|b| - 1];
      WithCountAppend(a, b[..|b| - 1], c);
    } else {
      assert a + b == a;
    }
  }

  lemma {:induction false} InsertStable(sorted: seq<Group>, g: Group, c: nat)
    ensures WithCount(InsertByCount(sorted, g), c) == WithCount(sorted, c) + WithCount([g], c)
  {
    if sorted == [] || sorted[|sorted| - 1].count >= g.count {
      WithCountAppend(sorted, [g], c);
    } else {
      var init, last := sorted[..|sorted| - 1], sorted[|sorted| - 1];
      var t := InsertByCount(init, g);
      assert InsertByCount(sorted, g) == t + [last];
      InsertStable(init, g, c);
      WithCountAppend(t, [last], c);
      var wg, wl := WithCount([g], c), WithCount([last], c);
      WithCountSingle(g, c);
      WithCountSingle(last, c);
      var a := WithCount(init, c);
      assert WithCount(sorted, c) == a + wl;
      SwapWhenOneEmpty(a, wg, wl);
    }
  }

  lemma SwapWhenOneEmpty(a: seq<Group>, x: seq<Group>, y: seq<Group>)
    requires x == [] || y == []
    ensures a + x + y == a + y + x
  {
    if x == [] {
      assert a + x == a;
    } else {
      assert a + y == a;
    }
  }

  lemma WithCountSingle(x: Group, c: nat)
    ensures WithCount([x], c) == if x.count == c then [x] else []
  {
    assert [x][..0] == [];
  }

  /** Ties keep their first-encountered order: the groups of any one size
      appear in the sorted list in the order they had before. */
  lemma {:induction false} SortByCountStable(gs: seq<Group>, c: nat)
    ensures WithCount(SortByCount(gs), c) == WithCount(gs, c)
  {
    if gs != [] {
      var init, last := gs[..|gs| - 1], gs[|gs| - 1];
      SortByCountStable(init, c);
      InsertStable(SortByCount(init), last, c);
      WithCountSingle(last, c);
    }
  }

  // ---------------------------------------------------------------------
  // Rows of the sheet
  // ---------------------------------------------------------------------

  const HeadWidth: nat := 8

  /** Columns 1-8 on the first row of a group: its number and the
      violation columns. */
  function Head(g: Group, tb: nat): (r: seq<Cell>)
    ensures |r| == HeadWidth && r[0] == Int(tb)
  {
    [Int(tb), Text(g.violationType), Text(g.fullname), Text(g.dob), Text(g.passport),
     Text(g.nationality), OptText(g.address), Int(g.count)]
  }

  /** Columns 1-8 on every later row of a group. */
  function BlankHead(): (r: seq<Cell>)
    ensures |r| == HeadWidth && forall i :: 0 <= i < |r| ==> r[i] == Blank
  {
    [Blank, Blank, Blank, Blank, Blank, Blank, Blank, Blank]
  }

  /** Columns 9-12: the office and name of the customs point, the protocol
      number and the report date. */
  function PlaceCells(r: Report): (c: seq<Cell>)
    ensures |c| == 4
  {
    [Text(r.pointOfficeName), Text(r.pointName), OptText(r.protocolNumber),
     Text(if r.reportDate.Some? then FormatDate(r.reportDate.value) else "")]
  }

  /** Columns 13-15 for a stored good: product, "amount unit" and reason. */
  function GoodCells(g: Good): (c: seq<Cell>)
    ensures |c| == 3
  {
    [Text(g.productName), Text(CentsToString(g.amountCents) + " " + g.unitName),
     Text(if g.reasonName.Some? then g.reasonName.value else "")]
  }

  /** Columns 13-15 of a report without stored goods. */
  function NoGoodCells(): (c: seq<Cell>)
    ensures |c| == 3
  {
    [Blank, Blank, Blank]
  }

  /** Columns 16-23: direction, countries, car number, codex articles, the
      fines of the first assigned task and the officer. */
  function TailCells(r: Report): (c: seq<Cell>)
    ensures |c| == 8
  {
    [Text(r.entryExitTransit),
     Text(if r.fromCountry.Some? then CountryStr(r.fromCountry.value) else ""),
     Text(if r.toCountry.Some? then CountryStr(r.toCountry.value) else ""),
     Text(if Truthy(r.carNumber) then r.carNumber.value else ""),
     Text(Join(", ", r.codexNames)),
     if r.tasks != [] then OptMoney(r.tasks[0].fineCents) else Blank,
     if r.tasks != [] then OptMoney(r.tasks[0].paidCents) else Blank,
     Text(Strip(r.officer.surname + " " + r.officer.name + " " + Formatted(r.officer.midname)))]
  }

  /** One `row_data` list: the head, the report's place cells, the good
      cells, then the report's tail cells. */
  function Row(head: seq<Cell>, r: Report, goodCells: seq<Cell>): (row: seq<Cell>)
    ensures |row| == |head| + 12 + |goodCells| && row[..|head|] == head
    ensures row[|head|..|head| + 4] == PlaceCells(r)
    ensures row[|head| + 4..|head| + 4 + |goodCells|] == goodCells
    ensures row[|head| + 4 + |goodCells|..] == TailCells(r)
  {
    FourParts(head, PlaceCells(r), goodCells, TailCells(r));
    head + PlaceCells(r) + goodCells + TailCells(r)
  }

  /** The row of stored good `j` of a report; the group's head goes on it
      when it is the report's first row and the report opens its group. */
  function GoodRow(g: Group, tb: nat, r: Report, first: bool, j: nat): seq<Cell>
    requires j < |r.goods|
  {
    Row(if first && j == 0 then Head(g, tb) else BlankHead(), r, GoodCells(r.goods[j]))
  }

  /** The rows of one report: one per stored good, or a single row with
      empty good columns. */
  function ReportRows(g: Group, tb: nat, r: Report, first: bool): (rows: seq<seq<Cell>>)
    ensures |rows| == RowsOf(r)
  {
    if r.goods == [] then [Row(if first then Head(g, tb) else BlankHead(), r, NoGoodCells())]
    else seq(|r.goods|, j requires 0 <= j < |r.goods| => GoodRow(g, tb, r, first, j))
  }

  /** The rows of each report of a group; only the first report starts with
      the head. */
  function ReportBlocks(g: Group, tb: nat): (bs: seq<seq<seq<Cell>>>)
    ensures |bs| == |g.reports|
  {
    seq(|g.reports|, j requires 0 <= j < |g.reports| => ReportRows(g, tb, g.reports[j], j == 0))
  }

  /** The rows of a group numbered `tb`. */
  function GroupRows(g: Group, tb: nat): seq<seq<Cell>> {
    Concat(ReportBlocks(g, tb))
  }

  /** The rows of each group; group `i` is numbered `i + 1`. */
  function GroupBlocks(groups: seq<Group>): (bs: seq<seq<seq<Cell>>>)
    ensures |bs| == |groups|
  {
    seq(|groups|, i requires 0 <= i < |groups| => GroupRows(groups[i], i + 1))
  }

  /** The data rows of the sheet, from row 2 on. */
  function SheetRows(groups: seq<Group>): seq<seq<Cell>> {
    Concat(GroupBlocks(groups))
  }

  /** Row `j` of a report: columns 9-12 are the report's place, columns
      13-15 its good `j` (or empty when it has no goods) and columns 16-23
      its tail. */
  lemma GroupedRowsShowGoods(g: Group, tb: nat, r: Report, first: bool, j: nat)
    requires j < RowsOf(r)
    ensures var row := ReportRows(g, tb, r, first)[j];
      |row| == HeadWidth + 15
      && row[HeadWidth..HeadWidth + 4] == PlaceCells(r)
      && row[HeadWidth + 4..HeadWidth + 7] == (if r.goods == [] then NoGoodCells() else GoodCells(r.goods[j]))
      && row[HeadWidth + 7..] == TailCells(r)
  {
    if r.goods != [] {
      assert ReportRows(g, tb, r, first)[j] == GoodRow(g, tb, r, first, j);
    }
  }

  /** The row the loop over stored goods writes for good `j`. */
  lemma NextGood(g: Group, tb: nat, r: Report, first: bool, j: nat, firstRowWritten: bool)
    requires j < |r.goods| && firstRowWritten == (!first || j > 0)
    ensures ReportRows(g, tb, r, first)[j]
         == Row(if !firstRowWritten then Head(g, tb) else BlankHead(), r, GoodCells(r.goods[j]))
  {
  }

  /** Step 3 of `export_grouped_report`: the data rows, from sheet row 2 on. */
  method WriteRows(groupedData: seq<Group>) returns (rows: seq<seq<Cell>>)
    ensures rows == SheetRows(groupedData)
  {
    rows := [];
    var rowNum := 2;
    var tbIndex := 1;
    var gi := 0;
    while gi < |groupedData|
      invariant 0 <= gi <= |groupedData|
      invariant tbIndex == gi + 1 && rowNum == |rows| + 2
      invariant rows == Concat(GroupBlocks(groupedData)[..gi])
    {
      ghost var before := rows;
      rows, rowNum := WriteGroup(groupedData[gi], tbIndex, rows, rowNum);
      NextBlock([], GroupBlocks(groupedData), gi, before, rows);
      tbIndex := tbIndex + 1;
      gi := gi + 1;
    }
    assert GroupBlocks(groupedData)[..gi] == GroupBlocks(groupedData);
  }

  /** The body of the loop over groups: `row_num` is the next free sheet
      row and `first_row_written` starts out false. */
  method WriteGroup(group: Group, tbIndex: nat, rows0: seq<seq<Cell>>, rowNum0: nat)
    returns (rows: seq<seq<Cell>>, rowNum: nat)
    requires rowNum0 == |rows0| + 2
    ensures rows == rows0 + GroupRows(group, tbIndex) && rowNum == |rows| + 2
  {
    rows, rowNum := rows0, rowNum0;
    var firstRowWritten := false;
    var ri := 0;
    while ri < |group.reports|
      invariant 0 <= ri <= |group.reports|
      invariant firstRowWritten == (ri > 0) && rowNum == |rows| + 2
      invariant rows == rows0 + Concat(ReportBlocks(group, tbIndex)[..ri])
    {
      ghost var before := rows;
      rows, rowNum, firstRowWritten := WriteReport(group, tbIndex, group.reports[ri], firstRowWritten, rows, rowNum);
      NextBlock(rows0, ReportBlocks(group, tbIndex), ri, before, rows);
      ri := ri + 1;
    }
    assert ReportBlocks(group, tbIndex)[..ri] == ReportBlocks(group, tbIndex);
  }

  /** The body of the loop over a group's reports: one row per stored good,
      or one row with empty good columns; the head goes on the row written
      while `first_row_written` is false. */
  method WriteReport(group: Group, tbIndex: nat, report: Report, firstRowWritten0: bool,
                     rows0: seq<seq<Cell>>, rowNum0: nat)
    returns (rows: seq<seq<Cell>>, rowNum: nat, firstRowWritten: bool)
    requires rowNum0 == |rows0| + 2
    ensures rows == rows0 + ReportRows(group, tbIndex, report, !firstRowWritten0)
    ensures firstRowWritten && rowNum == |rows| + 2
  {
    rows, rowNum, firstRowWritten := rows0, rowNum0, firstRowWritten0;
    ghost var first := !firstRowWritten0;
    ghost var own := ReportRows(group, tbIndex, report, first);
    if report.goods != [] {
      var j := 0;
      while j < |report.goods|
        invariant 0 <= j <= |report.goods|
        invariant firstRowWritten == (!first || j > 0) && rowNum == |rows| + 2
        invariant rows == rows0 + own[..j]
      {
        var sg := report.goods[j];
        var head := if !firstRowWritten then Head(group, tbIndex) else BlankHead();
        var rowData := Row(head, report, GoodCells(sg));
        NextGood(group, tbIndex, report, first, j, firstRowWritten);
        AppendNext(rows0, own, j);
        rows := rows + [rowData];
        rowNum := rowNum + 1;
        firstRowWritten := true;
        j := j + 1;
      }
      assert own[..j] == own;
    } else {
      var head := if !firstRowWritten then Head(group, tbIndex) else BlankHead();
      var rowData := Row(head, report, NoGoodCells());
      rows := rows + [rowData];
      rowNum := rowNum + 1;
      firstRowWritten := true;
    }
  }

  // ---------------------------------------------------------------------
  // Properties of the layout
  // ---------------------------------------------------------------------

  lemma {:induction false} ReportBlocksCount(g: Group, tb: nat, n: nat)
    requires n <= |g.reports|
    ensures |Concat(ReportBlocks(g, tb)[..n])| == TotalRows(g.reports[..n])
  {
    if n > 0 {
      ReportBlocksCount(g, tb, n - 1);
      ConcatStep(ReportBlocks(g, tb), n - 1);
      TotalRowsStep(g.reports, n);
    }
  }

  /** A group takes as many rows as its reports together: one per stored
      good, or one for a report without goods. */
  lemma GroupRowsCount(g: Group, tb: nat)
    ensures |GroupRows(g, tb)| == TotalRows(g.reports)
  {
    ReportBlocksCount(g, tb, |g.reports|);
    assert ReportBlocks(g, tb)[..|g.reports|] == ReportBlocks(g, tb);
    assert g.reports[..|g.reports|] == g.reports;
  }

  /** The first eight cells of a row: the group columns. */
  function HeadOf(row: seq<Cell>): seq<Cell> {
    if |row| < HeadWidth then row else row[..HeadWidth]
  }

  /** Row `k` of a report carries the head exactly when it is the report's
      first row and the report opens its group. */
  lemma ReportRowHead(g: Group, tb: nat, r: Report, first: bool, k: nat)
    requires k < RowsOf(r)
    ensures HeadOf(ReportRows(g, tb, r, first)[k])
         == if first && k == 0 then Head(g, tb) else BlankHead()
  {
  }

  /** The eight group columns are filled on a group's first row only. */
  lemma HeadOnlyOnFirstRow(g: Group, tb: nat, k: nat)
    requires k < |GroupRows(g, tb)|
    ensures HeadOf(GroupRows(g, tb)[k]) == if k == 0 then Head(g, tb) else BlankHead()
  {
    var bs := ReportBlocks(g, tb);
    forall i, off | 0 <= i < |bs| && 0 <= off < |bs[i]|
      ensures HeadOf(bs[i][off]) == if i == 0 && off == 0 then Head(g, tb) else BlankHead()
    {
      ReportRowHead(g, tb, g.reports[i], i == 0, off);
    }
    assert |bs[0]| == RowsOf(g.reports[0]) > 0;
    FirstRowOnly(bs, HeadOf, Head(g, tb), BlankHead(), k);
  }

  /** With no empty group, group `i` starts right after the rows of the
      groups before it, and its first row carries the group's head,
      numbered `i + 1`. */
  lemma TbNumbering(groups: seq<Group>, i: nat)
    requires i < |groups| && groups[i].reports != []
    ensures var rows := SheetRows(groups);
      var at := |Concat(GroupBlocks(groups)[..i])|;
      at < |rows| && HeadOf(rows[at]) == Head(groups[i], i + 1)
  {
    var g := groups[i];
    var own := GroupRows(g, i + 1);
    ConcatAt(ReportBlocks(g, i + 1), 0, 0);
    HeadOnlyOnFirstRow(g, i + 1, 0);
    ConcatAt(GroupBlocks(groups), i, 0);
  }

  /** Every group of the sorted list is well formed, in particular
      non-empty. */
  lemma SortedGroupsWellFormed(reports: seq<Report>, ids: seq<nat>)
    ensures var gs := SortByCount(Grouping(reports, ids).groups);
      forall j :: 0 <= j < |gs| ==> WellFormedGroup(gs[j], reports, ids)
  {
    var groups := Grouping(reports, ids).groups;
    var gs := SortByCount(groups);
    forall j | 0 <= j < |gs|
      ensures WellFormedGroup(gs[j], reports, ids)
    {
      var i := SortedFrom(groups, j);
      GroupWellFormed(reports, ids, i);
    }
  }

  /** The position in the unsorted list a sorted group comes from. */
  lemma SortedFrom(gs: seq<Group>, j: nat) returns (i: nat)
    requires j < |SortByCount(gs)|
    ensures i < |gs| && gs[i] == SortByCount(gs)[j]
  {
    assert SortByCount(gs)[j] in multiset(SortByCount(gs));
    assert SortByCount(gs)[j] in gs;
    i :| i < |gs| && gs[i] == SortByCount(gs)[j];
  }

  /** `export_grouped_report` without the workbook: group, sort, write. */
  method ExportGroupedReport(reports: seq<Report>, violations: seq<nat>) returns (rows: seq<seq<Cell>>)
    ensures rows == SheetRows(SortByCount(Grouping(reports, violations).groups))
  {
    var groupedData := GroupReports(reports, violations);
    groupedData := SortByCount(groupedData);
    rows := WriteRows(groupedData);
  }
}
