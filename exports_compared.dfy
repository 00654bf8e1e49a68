/** How the two Excel exports of the report admin relate: they take the
    same number of rows per report, and they name a violator differently. */
module ExportsCompared {
  import opened Wrappers
  import opened Text
  import opened RegistryModels
  import opened ReportModels
  import GroupedExport
  import FlatExport

  /** The export writes as many data rows as the grouped export writes for
      the same report: one per stored good, or one. */
  lemma SameRowsAsGroupedExport(l: FlatExport.Listed, index: nat, g: GroupedExport.Group, tb: nat, first: bool)
    ensures |FlatExport.FlatReportRows(l, index)| == |GroupedExport.ReportRows(g, tb, l.report, first)|
  {
  }

  /** For a legal entity stored with the exact code, both exports name the
      company; the grouped export adds the director on a second line. */
  lemma LegalEntityNamedInBothExports(v: Violation)
    requires v.violationType == LegalEntityCode
    ensures FlatExport.ViolatorColumn(v) == OrEmpty(v.companyName)
    ensures StartsWith(GroupedExport.GroupFullname(v), FlatExport.ViolatorColumn(v))
  {
    LowerOfLowerAscii(LegalEntityCode);
    var company := OrEmpty(v.companyName);
    var s := company + "\n\U{00DD}olba\U{015F}\U{00E7}ysy: " + OrEmpty(v.companyBossFullname);
    assert s[..|company|] == company;
  }

  /** A type stored in another case is matched by the grouped export, which
      lower-cases it, but not by the flat export. */
  lemma UpperCaseTypeOnlyGrouped(v: Violation)
    requires v.violationType == "Legal Entity"
    ensures FlatExport.ViolatorColumn(v) == ""
    ensures GroupedExport.GroupFullname(v)
         == OrEmpty(v.companyName) + "\n\U{00DD}olba\U{015F}\U{00E7}ysy: " + OrEmpty(v.companyBossFullname)
  {
    var t := "Legal Entity";
    forall i | 0 <= i < |t|
      ensures Lower(t)[i] == LegalEntityCode[i]
    {
      if i != 0 && i != 6 {
        assert 'a' <= t[i] <= 'z' || t[i] == ' ';
      }
    }
  }

  /** Lower-casing leaves lower-case ASCII letters and spaces alone. */
  lemma LowerOfLowerAscii(s: string)
    requires forall i :: 0 <= i < |s| ==> 'a' <= s[i] <= 'z' || s[i] == ' '
    ensures Lower(s) == s
  {
    forall i | 0 <= i < |s|
      ensures Lower(s)[i] == s[i]
    {
      assert !IsUpperLetter(s[i]);
    }
  }

}
