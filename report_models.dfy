/** The report records (report/models.py): a report with its stored goods
    and assigned tasks, the table-level uniqueness rules, the fine
    validators, the display strings and the upload path of a PDF. */
module ReportModels {
  import opened Wrappers
  import opened Text
  import opened RegistryModels

  // ---------------------------------------------------------------------
  // Records
  // ---------------------------------------------------------------------

  /** A Django user, compared by id as model instances are. */
  datatype User = User(id: nat, username: string, isSuperuser: bool)

  /** A stored good of a report with the names of its related rows and the
      URLs of its images, in query order. */
  datatype Good = Good(
    productName: string, amountCents: int, unitName: string,
    reasonName: Option<string>, note: Option<string>, imageUrls: seq<string>)

  /** An assigned task; the fines are decimals with two places, in cents. */
  datatype AssignedTask = AssignedTask(
    trb: Option<string>, workgroupName: string, fineCents: Option<int>, paidCents: Option<int>)

  /** A report with the related rows the admin and the exports read.
      `officeName` is the report's own customs office, `pointOfficeName` the
      office of its customs point; `tasks` are in the model's ordering
      (newest first). */
  datatype Report = Report(
    pk: nat, udBelgi: Option<string>, ishToplumNumber: string, protocolNumber: Option<string>,
    reportDate: Option<Date>, officeName: string, pointName: string, pointOfficeName: string,
    officer: CustomsOfficer, violationId: nat, violation: Violation, entryExitTransit: string,
    fromCountry: Option<Country>, toCountry: Option<Country>, carNumber: Option<string>,
    codexNames: seq<string>, goods: seq<Good>, tasks: seq<AssignedTask>, owner: Option<User>)

  // ---------------------------------------------------------------------
  // Uniqueness rules
  // ---------------------------------------------------------------------

  /** A unique constraint with `condition=Q(f__isnull=False, f__gt='')`:
      only non-null, non-empty values must be distinct. */
  predicate ConditionallyUnique(values: seq<Option<string>>) {
    forall i, j :: 0 <= i < j < |values| && values[i] == values[j] ==> !Truthy(values[i])
  }

  /** `unique=True` on a nullable column: NULLs never clash, every other
      value (the empty string included) must be distinct. */
  predicate NullableUnique(values: seq<Option<string>>) {
    forall i, j :: 0 <= i < j < |values| && values[i] == values[j] ==> values[i].None?
  }

  /** `unique=True` on a non-null column. */
  predicate Unique(values: seq<string>) {
    forall i, j :: 0 <= i < j < |values| ==> values[i] != values[j]
  }

  function UdBelgis(reports: seq<Report>): (r: seq<Option<string>>)
    ensures |r| == |reports| && forall i :: 0 <= i < |r| ==> r[i] == reports[i].udBelgi
  {
    seq(|reports|, i requires 0 <= i < |reports| => reports[i].udBelgi)
  }

  function ProtocolNumbers(reports: seq<Report>): (r: seq<Option<string>>)
    ensures |r| == |reports| && forall i :: 0 <= i < |r| ==> r[i] == reports[i].protocolNumber
  {
    seq(|reports|, i requires 0 <= i < |reports| => reports[i].protocolNumber)
  }

  function IshToplumNumbers(reports: seq<Report>): (r: seq<string>)
    ensures |r| == |reports| && forall i :: 0 <= i < |r| ==> r[i] == reports[i].ishToplumNumber
  {
    seq(|reports|, i requires 0 <= i < |reports| => reports[i].ishToplumNumber)
  }

  function Trbs(tasks: seq<AssignedTask>): (r: seq<Option<string>>)
    ensures |r| == |tasks| && forall i :: 0 <= i < |r| ==> r[i] == tasks[i].trb
  {
    seq(|tasks|, i requires 0 <= i < |tasks| => tasks[i].trb)
  }

  /** Every constraint of the Report table. */
  predicate ReportTableValid(reports: seq<Report>) {
    ConditionallyUnique(UdBelgis(reports))
    && Unique(IshToplumNumbers(reports))
    && NullableUnique(ProtocolNumbers(reports))
  }

  /** The constraint of the AssignedTask table. */
  predicate TaskTableValid(tasks: seq<AssignedTask>) {
    ConditionallyUnique(Trbs(tasks))
  }

  /** A row can join a conditionally unique column exactly when its value
      is None or empty, or not yet present. */
  lemma ConditionalInsert(values: seq<Option<string>>, v: Option<string>)
    requires ConditionallyUnique(values)
    ensures ConditionallyUnique(values + [v]) <==> !Truthy(v) || v !in values
  {
    var vs := values + [v];
    if Truthy(v) && v in values {
      var i :| 0 <= i < |values| && values[i] == v;
      assert vs[i] == vs[|values|];
    }
    if !Truthy(v) || v !in values {
      forall i, j | 0 <= i < j < |vs| && vs[i] == vs[j]
        ensures !Truthy(vs[i])
      {
        if j == |values| {
          assert vs[i] == values[i];
        } else {
          assert vs[i] == values[i] && vs[j] == values[j];
        }
      }
    }
  }

  /** Any number of rows may leave a conditionally unique column None or
      empty. */
  lemma BlankValuesNeverClash(values: seq<Option<string>>)
    requires forall i :: 0 <= i < |values| ==> !Truthy(values[i])
    ensures ConditionallyUnique(values)
  {
  }

  /** Two reports with an empty protocol number break the protocol
      constraint but not the `ud_belgi` one: the empty string is exempt only
      where the constraint carries the condition. */
  lemma EmptyStringExemptOnlyWhenConditional()
    ensures ConditionallyUnique([Some(""), Some("")])
    ensures !NullableUnique([Some(""), Some("")])
    ensures NullableUnique([None, None])
  {
    var vs: seq<Option<string>> := [Some(""), Some("")];
    assert vs[0] == vs[1];
  }

  /** A report can join a valid table exactly when it clashes on none of the
      three columns. */
  lemma ReportInsert(reports: seq<Report>, r: Report)
    requires ReportTableValid(reports)
    ensures ReportTableValid(reports + [r]) <==>
      (!Truthy(r.udBelgi) || r.udBelgi !in UdBelgis(reports))
      && r.ishToplumNumber !in IshToplumNumbers(reports)
      && (r.protocolNumber.None? || r.protocolNumber !in ProtocolNumbers(reports))
  {
    var rs := reports + [r];
    assert UdBelgis(rs) == UdBelgis(reports) + [r.udBelgi];
    assert IshToplumNumbers(rs) == IshToplumNumbers(reports) + [r.ishToplumNumber];
    assert ProtocolNumbers(rs) == ProtocolNumbers(reports) + [r.protocolNumber];
    ConditionalInsert(UdBelgis(reports), r.udBelgi);
    UniqueInsert(IshToplumNumbers(reports), r.ishToplumNumber);
    NullableInsert(ProtocolNumbers(reports), r.protocolNumber);
  }

  lemma UniqueInsert(values: seq<string>, v: string)
    requires Unique(values)
    ensures Unique(values + [v]) <==> v !in values
  {
    var vs := values + [v];
    if v in values {
      var i :| 0 <= i < |values| && values[i] == v;
      assert vs[i] == vs[|values|];
    }
    if v !in values {
      forall i, j | 0 <= i < j < |vs|
        ensures vs[i] != vs[j]
      {
        assert vs[i] == values[i];
      }
    }
  }

  lemma NullableInsert(values: seq<Option<string>>, v: Option<string>)
    requires NullableUnique(values)
    ensures NullableUnique(values + [v]) <==> v.None? || v !in values
  {
    var vs := values + [v];
    if v.Some? && v in values {
      var i :| 0 <= i < |values| && values[i] == v;
      assert vs[i] == vs[|values|];
    }
    if v.None? || v !in values {
      forall i, j | 0 <= i < j < |vs| && vs[i] == vs[j]
        ensures vs[i].None?
      {
        assert vs[i] == values[i];
      }
    }
  }

  // ---------------------------------------------------------------------
  // Fines
  // ---------------------------------------------------------------------

  /** The two decimal columns of a task. */
  datatype FineField = ImposedFine | PaidFine

  /** One decimal column with `max_digits=12, decimal_places=2` and
      `MinValueValidator(0)`; None (blank) is accepted. */
  predicate FineValid(cents: Option<int>) {
    cents.None? || (0 <= cents.value && cents.value < MaxAmountCents)
  }

  /** The task fields the validators reject. */
  function TaskErrors(t: AssignedTask): (errs: set<FineField>)
    ensures errs == {} <==> FineValid(t.fineCents) && FineValid(t.paidCents)
  {
    (if FineValid(t.fineCents) then {} else {ImposedFine})
    + (if FineValid(t.paidCents) then {} else {PaidFine})
  }

  /** A fine accepted by the validators is never negative and has at most
      ten integer digits. */
  lemma AcceptedFineBounds(t: AssignedTask)
    requires TaskErrors(t) == {}
    ensures t.fineCents.Some? ==> 0 <= t.fineCents.value < 1_000_000_000_000
    ensures t.paidCents.Some? ==> 0 <= t.paidCents.value < 1_000_000_000_000
  {
  }

  /** A negative fine is always reported. */
  lemma NegativeFineRejected(t: AssignedTask)
    requires t.fineCents.Some? && t.fineCents.value < 0
    ensures ImposedFine in TaskErrors(t)
  {
  }

  // ---------------------------------------------------------------------
  // Display strings
  // ---------------------------------------------------------------------

  /** A nullable decimal inside an f-string: "None", or its digits. */
  function FineText(cents: Option<int>): (r: string)
    ensures ParseCents(r) == cents
    ensures cents.Some? ==> (StartsWith(r, "-") <==> cents.value < 0)
  {
    match cents
    case None => "None"
    case Some(c) => CentsRoundTrip(c); CentsToString(c)
  }

  /** `AssignedTask.__str__`: "<workgroup> - <fine> Manat". */
  function AssignedTaskStr(t: AssignedTask): (r: string)
    ensures StartsWith(r, t.workgroupName + " - ") && EndsWith(r, " Manat")
    ensures |r| >= |t.workgroupName| + 9
    ensures ParseCents(r[|t.workgroupName| + 3 .. |r| - 6]) == t.fineCents
  {
    var r := t.workgroupName + " - " + FineText(t.fineCents) + " Manat";
    assert r[|t.workgroupName| + 3 .. |r| - 6] == FineText(t.fineCents);
    r
  }

  /** The label `Report.__str__` starts with. */
  function ProtocolLabel(r: Report): string {
    if Truthy(r.protocolNumber) then r.protocolNumber.value else "No Protocol"
  }

  /** The text `Report.__str__` strips. */
  function ReportRawStr(r: Report): string {
    ProtocolLabel(r) + " - " + r.officer.name + " " + Formatted(r.officer.midname) + " " + r.officer.surname
  }

  /** `Report.__str__`: the protocol number (or "No Protocol"), a dash and
      the officer's name, middle name and surname, outer whitespace
      stripped. */
  function ReportStr(r: Report): (s: string)
    ensures |s| <= |ReportRawStr(r)|
    ensures s != [] ==> !IsSpace(s[0]) && !IsSpace(s[|s| - 1])
  {
    Strip(ReportRawStr(r))
  }

  /** When the label does not begin with whitespace, the string begins with
      the label and the dash. */
  lemma ReportStrStartsWithLabel(r: Report)
    requires !IsSpace(ProtocolLabel(r)[0])
    ensures StartsWith(ReportStr(r), ProtocolLabel(r) + " -")
  {
    var head := ProtocolLabel(r);
    var prefix := head + " -";
    assert StartsWith(head + " - ", prefix) by {
      assert (head + " - ")[..|prefix|] == prefix;
    }
    var rest := r.officer.name + " " + Formatted(r.officer.midname) + " " + r.officer.surname;
    assert ReportRawStr(r) == (head + " - ") + rest;
    PrefixOfConcat(head + " - ", rest, prefix);
    assert !IsSpace('-');
    StripKeepsVisiblePrefix(ReportRawStr(r), prefix);
  }

  /** A report without a protocol number (None or empty) shows as
      "No Protocol - …". */
  lemma ReportStrWithoutProtocol(r: Report)
    requires !Truthy(r.protocolNumber)
    ensures StartsWith(ReportStr(r), "No Protocol -")
  {
    ReportStrStartsWithLabel(r);
  }

  /** A missing middle name is rendered as the word "None". */
  lemma ReportStrShowsNoneMidname(r: Report)
    requires r.officer.midname.None? && Truthy(r.protocolNumber)
    requires !IsSpace(r.protocolNumber.value[0])
    requires r.officer.surname != "" && !IsSpace(r.officer.surname[|r.officer.surname| - 1])
    ensures ReportStr(r) == r.protocolNumber.value + " - " + r.officer.name + " None " + r.officer.surname
  {
    var raw := ReportRawStr(r);
    assert raw == r.protocolNumber.value + " - " + r.officer.name + " None " + r.officer.surname;
    assert raw[0] == r.protocolNumber.value[0];
    assert raw[|raw| - 1] == r.officer.surname[|r.officer.surname| - 1];
  }

  // ---------------------------------------------------------------------
  // Upload path of a PDF
  // ---------------------------------------------------------------------

  /** `filename.split('.')[-1]`: the text after the last dot, or the whole
      name when it has no dot. */
  function Extension(filename: string): (ext: string)
    ensures '.' !in ext
    ensures '.' !in filename ==> ext == filename
    ensures '.' in filename ==> EndsWith(filename, "." + ext)
  {
    if filename == "" then ""
    else if filename[|filename| - 1] == '.' then ""
    else
      var init := filename[..|filename| - 1];
      var last := filename[|filename| - 1];
      assert filename == init + [last];
      var e := Extension(init);
      if '.' in init then
        assert EndsWith(init + [last], "." + e + [last]);
        e + [last]
      else
        assert e == init;
        filename
  }

  /** `os.path.join(a, b)`: an absolute `b` replaces `a`; otherwise a slash
      is inserted unless `a` is empty or already ends with one. */
  function PathJoin(a: string, b: string): string {
    if StartsWith(b, "/") then b
    else if a == "" || EndsWith(a, "/") then a + b
    else a + "/" + b
  }

  /** `rename_pdf(instance, filename)`; `year` and `month` are today's date
      and `uuid` the text of `uuid.uuid4()`. */
  function RenamePdf(filename: string, year: nat, month: nat, uuid: string): (path: string)
    ensures EndsWith(path, "." + Extension(filename))
    ensures !StartsWith(uuid, "/") ==>
      path == "nusgalar/" + NatToString(year) + "/" + NatToString(month) + "/" + uuid + "." + Extension(filename)
  {
    var dir := "nusgalar/" + NatToString(year) + "/" + NatToString(month) + "/";
    var name := uuid + "." + Extension(filename);
    PathJoinOfName(dir, uuid, Extension(filename));
    PathJoin(dir, name)
  }

  /** Joining a folder that ends with a slash and `uuid + "." + ext`. */
  lemma PathJoinOfName(dir: string, uuid: string, ext: string)
    requires dir != [] && dir[|dir| - 1] == '/'
    ensures EndsWith(PathJoin(dir, uuid + "." + ext), "." + ext)
    ensures !StartsWith(uuid, "/") ==> PathJoin(dir, uuid + "." + ext) == dir + (uuid + "." + ext)
  {
    var name := uuid + "." + ext;
    assert EndsWith(dir, "/");
    assert EndsWith(name, "." + ext) by {
      assert name[|name| - |"." + ext|..] == "." + ext;
    }
    assert uuid == "" ==> name[..1] == ".";
    assert uuid != "" ==> name[..1] == uuid[..1];
    if !StartsWith(name, "/") {
      assert (dir + name)[|dir + name| - |"." + ext|..] == name[|name| - |"." + ext|..];
    }
  }

  /** The text `uuid.uuid4()` renders: 36 characters of lower-case hex
      digits and dashes. */
  predicate UuidText(u: string) {
    |u| == 36 && forall i :: 0 <= i < |u| ==> u[i] in "0123456789abcdef-"
  }

  /** A generated name lands in the year/month folder and keeps the
      extension; two uploads get the same path only when their uuids and
      extensions agree. */
  lemma RenamePdfInFolder(f1: string, f2: string, year: nat, month: nat, u1: string, u2: string)
    requires UuidText(u1) && UuidText(u2)
    ensures StartsWith(RenamePdf(f1, year, month, u1), "nusgalar/")
    ensures RenamePdf(f1, year, month, u1) == RenamePdf(f2, year, month, u2) <==>
      u1 == u2 && Extension(f1) == Extension(f2)
  {
    var dir := "nusgalar/" + NatToString(year) + "/" + NatToString(month) + "/";
    assert u1[0] in "0123456789abcdef-" && u2[0] in "0123456789abcdef-";
    var n1, n2 := u1 + "." + Extension(f1), u2 + "." + Extension(f2);
    assert RenamePdf(f1, year, month, u1) == dir + n1;
    assert RenamePdf(f2, year, month, u2) == dir + n2;
    assert StartsWith(dir, "nusgalar/") by {
      assert dir[..9] == "nusgalar/";
    }
    PrefixOfConcat(dir, n1, "nusgalar/");
    CommonPrefixCancels(dir, n1, n2);
    SplitAtFixedDot(u1, Extension(f1), u2, Extension(f2));
  }

  lemma CommonPrefixCancels(p: string, a: string, b: string)
    ensures p + a == p + b <==> a == b
  {
    if p + a == p + b {
      assert a == (p + a)[|p|..];
      assert b == (p + b)[|p|..];
    }
  }

  /** Strings made of a fixed-width head, a dot and a tail are equal exactly
      when heads and tails are. */
  lemma SplitAtFixedDot(h1: string, t1: string, h2: string, t2: string)
    requires |h1| == |h2|
    ensures h1 + "." + t1 == h2 + "." + t2 <==> h1 == h2 && t1 == t2
  {
    if h1 + "." + t1 == h2 + "." + t2 {
      var n := |h1|;
      assert h1 == (h1 + "." + t1)[..n];
      assert h2 == (h2 + "." + t2)[..n];
      assert t1 == (h1 + "." + t1)[n + 1..];
      assert t2 == (h2 + "." + t2)[n + 1..];
    }
  }
}
