# Customs registry and violation reports: a verified model

This project models the rules underneath a Django application. Customs officers
use the application to record violations of customs rules, the goods they seize
and the fines they impose. Its administrators export those records to Excel.
The Dafny model replaces the ORM with sequences and maps. It replaces database
uniqueness with predicates over a table. The rules themselves are stated as
functions, methods and classes, and properties of them are proved:

- **The polymorphic Violation record** (`RegistryModels`). A violator is a
  legal entity, an individual or an official.
  - `full_name` and `__str__` build its display strings.
  - The pre-save signal clears the field group that no longer applies when the
    kind changes (`ViolationSignals`). This is a method on the instance the
    signal receives.
  - The admin form makes a different set of fields required for each kind, and
    reports the ones left empty (`ViolationForms`). The form is a class whose
    methods update its `required`, `cleaned_data` and `errors` state.
- **Record-level rules.**
  - Product names are capitalised on save and unique case-insensitively.
  - A stored good's amount is positive, and at least 1 once the field
    validator runs.
  - A customs point's name is unique within its office.
  - The conditional unique constraints on `ud_belgi` and `trb`.
  - The non-negative fines.
  - The `__str__` renderings and the PDF upload path (`ReportModels`).
- **The report admin** (`ReportAdmin`):
  - who may change a report;
  - which actions a user sees;
  - who becomes the owner on save;
  - the list-display summaries, including at most three thumbnails per stored
    good followed by "+N more".
- **The two Excel exports of `report/utils.py`**, reduced to the rows they
  write (`Sheet`, `GroupedExport`, `FlatExport`, `ExportsCompared`).
  - `export_grouped_report` groups reports by violation. A set of seen reports
    keeps each report in at most one group. Groups are sorted stably by count,
    descending. The group columns are written on the group's first row only.
  - `export_report_to_excel` writes one row per stored good, or one row for a
    report without goods. The report number appears on the report's first
    row only, and a product counter runs beside it.
  - Both loops are methods proved equal to a specification function of the
    rows. The layout properties are proved about those functions.

`Wrappers` holds `Option` and a pass/fail outcome. `Text` models the Python
string operations the source relies on: `strip`, `join`,
`filter(None, ...)`, `capitalize`, `upper`/`lower`, `str(Decimal)` and
`strftime('%d.%m.%Y')`.

`rename_pdf` appears twice, with identical bodies. The copies are at
customs_registry/models.py:631-636 and report/models.py:208-213.
`ReportModels.RenamePdf` models both.

Where the code and its comments disagree, the model follows the code:
- The flat export's empty-selection failure is modelled as an error result.
- `Product.__str__` lower-cases the tail of the name.
- `Report.__str__` prints a missing middle name as "None".
- The grouped export compares the kind case-insensitively; the flat export
  compares it exactly.

## Model

| member | source | states |
|---|---|---|
| RegistryModels.KindOf | customs_registry/models.py:312-323 | classifying a stored `violation_type` keeps its text; it is `Other` exactly when it is none of the three choices |
| RegistryModels.KindOfCode | customs_registry/models.py:312-316 | each of the three kinds reads back from its stored code |
| RegistryModels.CountryStr | customs_registry/models.py:75-76 | a country shows as its upper-cased code and " - ", ending with its name |
| RegistryModels.FullNameAllParts | customs_registry/models.py:428-435 | with all three parts set, `full_name` is name, surname and father name, separated by single spaces |
| RegistryModels.FullNameSkipsSurname | customs_registry/models.py:434-435 | a missing middle part is skipped with no double space |
| RegistryModels.FullNameEmpty | customs_registry/models.py:434-435 | `full_name` is empty exactly when all three parts are None or empty |
| RegistryModels.ViolationStrLegalEntity | customs_registry/models.py:438-441 | a legal entity shows "<type>: <company>" when the company name is set, the type alone otherwise |
| RegistryModels.ViolationStrPerson | customs_registry/models.py:443-449 | an individual or official shows surname, name and father name after the type, or the type alone when all three are empty |
| RegistryModels.ViolationStrOther | customs_registry/models.py:451-452 | every other case shows the type alone |
| RegistryModels.FullNameOrderDiffersFromStr | customs_registry/models.py:428-449 | `full_name` reads "name surname" where `__str__` reads "surname name" |
| RegistryModels.Product.Save | customs_registry/models.py:119-122 | the stored name becomes the name with only its first character upper-cased |
| RegistryModels.UpperFirstIdempotent | customs_registry/models.py:119-122 | saving twice stores what saving once does; an empty name stays empty |
| RegistryModels.LowerOfUpperFirst | customs_registry/models.py:109-122 | saving leaves the lower-cased name, the key of the unique constraint, unchanged exactly when the name is empty or does not open with ı, ſ or µ |
| RegistryModels.CapitalizeAfterSave | customs_registry/models.py:116-122 | `__str__` of the saved name equals `__str__` of the name as typed |
| RegistryModels.StrDiffersFromStoredName | customs_registry/models.py:116-122 | for "tV" the stored name is "TV" but `__str__` shows "Tv" |
| RegistryModels.InsertProductName | customs_registry/models.py:109-114 | a name joins a case-insensitively unique table exactly when no stored name matches it after lower-casing |
| RegistryModels.SavePreservesNameUniqueness | customs_registry/models.py:109-122 | when no name opens with ı, ſ or µ, saving every name keeps the table unique exactly when it was unique before |
| RegistryModels.SaveCanCollideNames | customs_registry/models.py:109-122 | "ıa" and "ia" are distinct under the constraint, but both are saved as "Ia", which the constraint then rejects |
| RegistryModels.AmountFieldErrors | customs_registry/models.py:479-487 | the field validators reject an amount below 1, and one that exceeds 12 digits |
| RegistryModels.CleanStoredGood | customs_registry/models.py:536-544 | `clean()` fails, with the not-positive error, exactly when the amount is at most 0 |
| RegistryModels.StoredGoodAccepted | customs_registry/models.py:479-544 | a stored good validates exactly when 1 <= amount < 10^10; an amount in (0, 1) passes `clean()` and fails only the validator |
| RegistryModels.CleanCustomsPoint | customs_registry/models.py:55-58 | `clean()` fails exactly when another row with a different id has the same office and name |
| RegistryModels.CleanStoredPoint | customs_registry/models.py:55-58 | a stored point never clashes with itself; it fails exactly when another stored point shares its office and name |
| RegistryModels.UniqueTablePassesClean | customs_registry/models.py:46-58 | in a table that meets `unique_customsoffice_name`, every stored point passes `clean()` |
| RegistryModels.CleanNewPoint | customs_registry/models.py:55-58 | an unsaved point fails exactly when a stored point in its office has its name |
| RegistryModels.OfficerStr | customs_registry/models.py:296-305 | the officer string ends with ")" and is the joined parts with only the leading whitespace cut |
| RegistryModels.OfficerStrUnstripped | customs_registry/models.py:296-305 | with a visible first character nothing is stripped, so inner double spaces remain |
| RegistryModels.OfficerStrAllEmpty | customs_registry/models.py:296-305 | an officer with every part empty shows as "()" |
| ViolationSignals.ResetFieldsOnViolationTypeChange | customs_registry/signals.py:100-125 | without a pk the instance is untouched; a pk missing from the table raises, leaving the instance untouched; otherwise the record becomes `ResetFields` of the stored type; the pk never changes |
| ViolationSignals.CreateIsUntouched | customs_registry/signals.py:103 | a create (no pk) leaves the record as it was |
| ViolationSignals.SameTypeUnchanged | customs_registry/signals.py:108 | an unchanged type changes no field |
| ViolationSignals.ClearsCompanyGroup | customs_registry/signals.py:110-113 | leaving "legal entity", or becoming an individual or official, clears company name, address and phone and keeps all person fields |
| ViolationSignals.ClearsPersonGroup | customs_registry/signals.py:115-125 | otherwise, becoming "legal entity" clears the nine person fields and keeps the company fields |
| ViolationSignals.AtMostOneGroup | customs_registry/signals.py:108-125 | at most one group changes; the type and the company boss never change |
| ViolationSignals.PersonSwitchKeepsPerson | customs_registry/signals.py:110-113 | switching between individual and official clears the company group and keeps every person field |
| ViolationSignals.PersonToUnknownUnchanged | customs_registry/signals.py:108-125 | from a person to a type outside the choices, nothing is cleared |
| ViolationSignals.InapplicableGroupEmpty | customs_registry/signals.py:108-125 | after a change of type, the group that does not apply to the new type is empty |
| ViolationSignals.ResetIdempotent | customs_registry/signals.py:108-125 | running the rule twice against the same stored type equals running it once |
| ViolationForms.ViolationAdminForm.constructor | customs_registry/forms.py:56-59 | the new form has exactly the instance type's fields required, no errors and the given cleaned data |
| ViolationForms.ViolationAdminForm.SetRequiredFields | customs_registry/forms.py:61-76 | afterwards a field is required exactly when the type requires it; data and errors are unchanged |
| ViolationForms.ViolationAdminForm.AddError | customs_registry/forms.py:86-99 | `add_error` appends the message to the field's errors and drops the field from `cleaned_data` |
| ViolationForms.ViolationAdminForm.RequireTruthy | customs_registry/forms.py:84-99 | one `if not cleaned_data.get(f)` check: the errors and the data equal those after every falsy field checked so far |
| ViolationForms.ViolationAdminForm.CheckLegalEntity | customs_registry/forms.py:83-87 | after the legal-entity branch, exactly the falsy ones of the company name and the address carry the legal-entity message and are gone from the data |
| ViolationForms.ViolationAdminForm.CheckPerson | customs_registry/forms.py:88-99 | after the individual/official branch, exactly the falsy ones of the five person fields carry the person message and are gone from the data |
| ViolationForms.ViolationAdminForm.Clean | customs_registry/forms.py:78-101 | exactly the required fields with falsy values get one message each, with the type's message; the returned data is `cleaned_data` without them |
| ViolationForms.MissingOfLegalEntity | customs_registry/forms.py:83-87 | for a legal entity the reported fields are the falsy ones among company name and address |
| ViolationForms.MissingOfPerson | customs_registry/forms.py:88-99 | for an individual or official the reported fields are the falsy ones among the five person fields |
| ViolationForms.ErrorsAfterMeaning | customs_registry/forms.py:84-99 | a reported field gains exactly one message; every other field keeps its earlier messages |
| ViolationForms.LegalEntityRequired | customs_registry/forms.py:68-70 | a legal entity requires exactly company name and address |
| ViolationForms.PersonRequired | customs_registry/forms.py:71-76 | an individual or official requires exactly five fields, not father name or passport number |
| ViolationForms.OtherTypeRequiresNothing | customs_registry/forms.py:63-76 | no type, or any other type, requires nothing |
| ViolationForms.CleanReportsExactly | customs_registry/forms.py:55-99 | when the form was built on an instance of the submitted type, a field is reported exactly when the form flags it required and its value is None or empty |
| ViolationForms.FlagsFollowInstanceType | customs_registry/forms.py:55-99 | the flags come from the instance's stored type and `clean()` from the submitted one: a legal entity resubmitted as an individual keeps the company fields flagged while `clean()` reports the five person fields |
| ViolationForms.OptionalFieldsNeverReported | customs_registry/forms.py:82-99 | father name, passport number, the type and the company boss never get an error |
| ViolationForms.UnknownTypeNoErrors | customs_registry/forms.py:82-99 | a cleaned type outside the choices adds no error |
| ViolationForms.CleanKeepsTruthyValues | customs_registry/forms.py:80-101 | every truthy value survives in the returned data |
| ViolationForms.FilledFormHasNoErrors | customs_registry/forms.py:82-99 | a form with every required field filled reports nothing |
| ReportModels.ConditionalInsert | report/models.py:174-180 | a value joins a conditionally unique column exactly when it is None, empty or not already present |
| ReportModels.BlankValuesNeverClash | report/models.py:174-180 | any number of None or empty values satisfy the condition |
| ReportModels.EmptyStringExemptOnlyWhenConditional | report/models.py:62-68 | two empty strings are allowed in `ud_belgi` but not in `protocol_number`; two NULLs are allowed in both |
| ReportModels.ReportInsert | report/models.py:29-68 | a report joins a valid table exactly when its `ud_belgi`, `ish_toplum_number` and `protocol_number` clash with no stored report |
| ReportModels.UniqueInsert | report/models.py:55-61 | a value joins a unique column exactly when it is new |
| ReportModels.NullableInsert | report/models.py:62-68 | a value joins a nullable unique column exactly when it is NULL or new |
| ReportModels.TaskErrors | report/models.py:236-257 | a task has no error exactly when both fines are absent, or at least 0 and within 12 digits |
| ReportModels.AcceptedFineBounds | report/models.py:236-257 | an accepted fine is never negative and stays below 10^10 manat |
| ReportModels.NegativeFineRejected | report/models.py:241-243 | a negative imposed fine is always reported |
| ReportModels.FineText | report/models.py:304-305 | the rendered fine reads back to the stored value ("None" for a missing one), signed as the value |
| ReportModels.AssignedTaskStr | report/models.py:304-305 | "<workgroup> - <fine> Manat", and the middle reads back to the stored fine |
| ReportModels.ReportStr | report/models.py:183-185 | the string has no outer whitespace and is no longer than the text it strips |
| ReportModels.ReportStrStartsWithLabel | report/models.py:183-185 | the string starts with the protocol label and " -" |
| ReportModels.ReportStrWithoutProtocol | report/models.py:183-185 | a None or empty protocol number shows as "No Protocol -" |
| ReportModels.ReportStrShowsNoneMidname | report/models.py:183-185 | a missing middle name is printed as "None" |
| ReportModels.Extension | report/models.py:210 | the extension has no dot; it is the whole name when there is no dot, and the name ends with "." and it otherwise |
| ReportModels.RenamePdf | report/models.py:208-213 | the path ends with "." and the extension, and is the dated folder followed by "<uuid>.<ext>" |
| ReportModels.PathJoinOfName | report/models.py:213 | joining onto a folder ending in "/" appends the file name |
| ReportModels.RenamePdfInFolder | report/models.py:208-213 | the path lies under "nusgalar/"; two paths of the same month are equal exactly when the uuids and extensions are |
| ReportAdmin.SuperuserMayChange | report/admin.py:185-186 | a superuser may change any report |
| ReportAdmin.ChangeListOpen | report/admin.py:188-189 | with no object, every user is permitted |
| ReportAdmin.OwnerMayChange | report/admin.py:192-193 | the owner may change the report |
| ReportAdmin.OtherOwnerNeedsRelation | report/admin.py:195-203 | an ordinary non-owner may change it exactly when the profile lists the owner; without a profile, never |
| ReportAdmin.OwnerlessOnlySuperuser | report/admin.py:180-203 | a report without an owner can be changed only by a superuser |
| ReportAdmin.MoreRelatedUsersMonotone | report/admin.py:195-203 | relating more users never takes a permission away |
| ReportAdmin.GetActions | report/admin.py:161-171 | an action is kept exactly when it was inherited and is not the grouped export for a user other than "admin" and "admin1"; kept actions are unchanged |
| ReportAdmin.SaveModel | report/admin.py:205-211 | on creation the requesting user becomes the owner; on update owner and pk stay; afterwards the pk is set |
| ReportAdmin.CreatorStaysOwner | report/admin.py:205-214 | after a create and any later edit, the creator is still the owner, and the list's owner column shows the creator's username |
| ReportAdmin.TaskEntry | report/admin.py:308-311 | "<workgroup> - <fine> manat", with the middle reading back to the fine |
| ReportAdmin.AssignedTasksDisplayEmpty | report/admin.py:306-313 | the fixed text appears exactly when there is no task; otherwise the display ends with the last task's entry |
| ReportAdmin.FormattedReportDate | report/admin.py:317-319 | "No date" without a date, the dd.mm.yyyy text with one |
| ReportAdmin.FormattedDateNeverFixedText | report/admin.py:317-319 | a valid date never shows as "No date" |
| ReportAdmin.Summarize | report/admin.py:325-341 | at most 3 images are shown, as a prefix of the good's images; "+N more" appears exactly when there are more than 3; shown + N = all |
| ReportAdmin.SummaryCases | report/admin.py:329-341 | up to 3 images are all shown with no link; above 3 the first 3 are shown and N = count - 3 |
| ReportAdmin.GoodHtml | report/admin.py:327-349 | the loop body renders the good's summary |
| ReportAdmin.RenderGood | report/admin.py:344-349 | each good renders as one `<div>` block |
| ReportAdmin.StoredGoodsDisplay | report/admin.py:322-352 | the loop's result is the blocks of every good in order joined by "<br>", or the fixed text |
| ReportAdmin.StoredGoodsTextEmpty | report/admin.py:352 | "No stored goods" appears exactly when there is no good; otherwise the display starts with the first good's block |
| GroupedExport.Related | report/utils.py:66-68 | the related reports are exactly the selected reports of that violation |
| GroupedExport.Unseen | report/utils.py:74 | the unique reports are exactly the related ones whose pk has not been seen |
| GroupedExport.GroupReports | report/utils.py:59-105 | the loop's groups are those of the `Grouping` specification over the violation ids |
| GroupedExport.BuildGroup | report/utils.py:78-102 | the group built from the unique reports is `MakeGroup` of them |
| GroupedExport.GroupFullnameOfPerson | report/utils.py:81-86 | a non-legal-entity group names surname, name and father name, in that order, unstripped between visible ends |
| GroupedExport.GroupsWellFormed | report/utils.py:74-102 | every group is non-empty, its count is its number of reports, and all of them are selected reports of one listed violation |
| GroupedExport.SeenIsGrouped | report/utils.py:60-105 | the seen set is exactly the pks of the grouped reports |
| GroupedExport.GroupsDisjoint | report/utils.py:61-105 | no report pk is in two groups |
| GroupedExport.GroupingCoversListed | report/utils.py:63-105 | every selected report of a listed violation ends up seen |
| GroupedExport.InsertByCount | report/utils.py:108 | inserting keeps the groups as a multiset |
| GroupedExport.SortByCount | report/utils.py:108 | sorting is a permutation of the groups |
| GroupedExport.SortByCountSorted | report/utils.py:108 | the sorted groups have non-increasing counts |
| GroupedExport.SortByCountStable | report/utils.py:108 | groups with equal counts keep their first-encounter order |
| GroupedExport.SortedGroupsWellFormed | report/utils.py:74-108 | sorting keeps every group well formed |
| GroupedExport.Row | report/utils.py:120-144 | a row is the head, then the report's 4 place cells, then the good cells, then the report's 8 tail cells, each read back at its place |
| GroupedExport.GroupedRowsShowGoods | report/utils.py:116-182 | row j of a report has 23 cells: columns 9-12 are the report's place, columns 13-15 its good j (or empty when it has no goods) and columns 16-23 its tail |
| GroupedExport.ReportRows | report/utils.py:116-182 | a report yields one row per stored good, or one row |
| GroupedExport.GroupRowsCount | report/utils.py:114-184 | a group's rows number the sum over its reports of max(1, goods) |
| GroupedExport.HeadOnlyOnFirstRow | report/utils.py:115-182 | row k of a group starts with the group head when k = 0 and with eight blank cells otherwise |
| GroupedExport.TbNumbering | report/utils.py:112-184 | the first row of group i in the sheet carries the number i + 1 and that group's head |
| GroupedExport.WriteRows | report/utils.py:110-184 | the writing loop produces `SheetRows` of the groups |
| GroupedExport.WriteGroup | report/utils.py:115-182 | one group's loop appends its rows; `row_num` stays the sheet row after the last one |
| GroupedExport.WriteReport | report/utils.py:116-182 | one report's loop appends its rows; afterwards `first_row_written` is set |
| GroupedExport.ExportGroupedReport | report/utils.py:14-184 | the data rows are the sorted grouping laid out by `SheetRows` |
| FlatExport.Products | report/utils.py:385-388 | the goods written are the stored goods, or a single placeholder |
| FlatExport.FlatRow | report/utils.py:389-445 | a row has 43 cells, the report number is in column 1 on the first row only, and columns 16-21 are the counter and the good |
| FlatExport.FlatReportRows | report/utils.py:385-446 | a report yields max(1, goods) rows |
| FlatExport.ExportReportToExcel | report/utils.py:203-466 | an empty selection fails (`last_row` unbound); otherwise the sheet is the header row as written followed by every report's rows, numbered from 1 |
| FlatExport.WriteFlatReport | report/utils.py:385-446 | the inner loop appends exactly the report's rows |
| FlatExport.DataRowWidth | report/utils.py:389-445 | every data row has 43 cells |
| FlatExport.RowsMatchHeaders | report/utils.py:210-263 | every row of the sheet as written has as many cells as there are headers |
| FlatExport.CorrectedRowsMatchHeaders | report/utils.py:210-263 | the same for the sheet under the corrected header row |
| FlatExport.GoodOnSheet | report/utils.py:385-446 | good idx of report i lies on a data row of 43 cells with its reason in column 20 and its note in column 21, the same row in both sheets |
| FlatExport.ReasonHeaderOverNotes | report/utils.py:226-231 | in the sheet as written, column 20 is headed "Unit of Measurement" over the reasons and column 21 "Reason for Rule Violation" over the notes |
| FlatExport.CorrectedSheetLabelsGoods | report/utils.py:226-231 | under the corrected header row, column 20 is headed "Reason for Rule Violation" over the reasons and column 21 "Note" over the notes; the data rows are unchanged |
| FlatExport.ReportRowsShowGoods | report/utils.py:389-414 | row idx of a report has counter idx + 1 and shows good idx, or empty good cells when there are no goods |
| FlatExport.ReportNumbering | report/utils.py:296-391 | the first row of report i carries the number i + 1 |
| FlatExport.FlatRowsCount | report/utils.py:296-446 | the data rows number the sum over the reports of max(1, goods) |
| FlatExport.AddressFallback | report/utils.py:346 | a non-empty violator address is shown; an empty one falls back to the company address |
| FlatExport.ViolatorColumnByType | report/utils.py:326-343 | column 8 holds the joined name parts for an individual or official, the company for a legal entity, and nothing for any other type |
| FlatExport.HeadersMislabelGoods | report/utils.py:226-231 | as written, the reason column is labelled "Unit of Measurement" and the note column "Reason for Rule Violation" |
| FlatExport.CorrectedHeadersLabelGoods | report/utils.py:226-231 | corrected, the six good labels are distinct and every other label is unchanged |
| ExportsCompared.SameRowsAsGroupedExport | report/utils.py:116-182 | both exports write the same number of rows for a report |
| ExportsCompared.LegalEntityNamedInBothExports | report/utils.py:81-82 | for a legal entity stored with the exact code, the flat name cell is the company name and the grouped name cell starts with it |
| ExportsCompared.UpperCaseTypeOnlyGrouped | report/utils.py:81-82 | for a type stored as "Legal Entity", the flat name cell is empty while the grouped one names the company |
| Text.CentsRoundTrip | report/models.py:304-305 | the decimal text of an amount in cents reads back to the same amount |
| Text.FormatDateInjective | report/admin.py:319 | two valid dates format as the same dd.mm.yyyy text only when they are equal |

## Left out

- The ORM and the database. Querysets are sequences; related rows are the fields the rules read. Uniqueness constraints are predicates over a table, and `objects.get` is a map lookup.
- `gettext` translation. Type labels and header labels are the untranslated source texts, and `get_violation_type_display()` is the stored code.
- `uuid4()` and `datetime.today()` are parameters of `RenamePdf`. Timestamps (`created_at`, `updated_at`) are given as text.
- Money and amounts (`Decimal` with two places) are integer cents. `str(Decimal)` is rendered with two decimals, which is how the columns store them.
- Case mapping is character by character over ASCII, Latin-1 and Latin Extended-A. Upper-casing also maps ı to I, ſ to S and µ to the Greek capital Μ. Multi-character mappings (ß, ŉ, İ) and other scripts, Greek included, are left unchanged, so the model lower-cases Μ to itself where Python gives μ.
- RegistryModels.ProductNamesUnique: the constraint's `LOWER()` runs in the database, and the model takes it to be the same character map as Python's `lower()`. A database whose `LOWER` folds only ASCII, as SQLite's built-in one does, lets names that differ only in non-ASCII case ("Çay" and "çay") coexist, which the model's constraint rejects.
- RegistryModels.SavePreservesNameUniqueness: holds only for names that do not open with ı, ſ or µ. For those, `save()` changes the lower-cased name, and RegistryModels.SaveCanCollideNames shows two such names colliding.
- RegistryModels.LowerOfUpperFirst: the lower-cased name is kept only for names that do not open with ı, ſ or µ; the lemma states both directions.
- The workbook, its styling, column widths, fonts, fills and freeze panes are left out, and so is the `HttpResponse`. This includes the red fill in the flat export, which line 460 overwrites anyway. `max_lengths` in the flat export is computed but never used.
- The file-deletion and image-resize signals, other forms, the REST views, URL routing and admin configuration tuples. They are file I/O or framework plumbing.
- `StoredGoodImage` storage: the admin summary takes each good's image URLs as given.
- In the flat export, the letters of a report's tasks are given flattened, task after task, and each task's workgroup is given by name.
- RegistryModels.CustomsOfficer keeps its position and military name optional, although the source's foreign keys are required. The model is therefore more permissive than the source.
- ViolationForms.ViolationAdminForm.Clean: the `cleaned_data` it returns lacks the reported fields. `add_error` removes them in Django. The model's `cleaned_data` is therefore not the dictionary `clean()` started from.
- ViolationForms.ViolationAdminForm: Django's field-level validation, which the `required` flags drive, is not run. It runs before `clean()` and adds "This field is required." to a required field left empty, so such a field can carry two messages in the application. `Clean` starts from the `cleaned_data` that field validation leaves, given as a parameter of the constructor.
- Text.FormatDate: years below 1000 are zero-padded to four digits. What `strftime('%Y')` prints for such years depends on the C library.
- ReportAdmin.GetActions: the inherited actions are a parameter, since they come from the framework.
- ReportAdmin.StoredGoodsDisplay: `mark_safe` is the identity.
- GroupedExport.ExportGroupedReport: the sheet's header row and the column widths computed from the cells are left out; the model covers the data rows.
- The loop bodies of the exports and of `stored_goods_display` are separate methods: BuildGroup, WriteGroup, WriteReport, WriteFlatReport and GoodHtml. The loops they come from call them once per iteration. In the same way, the two branches of the form's `clean` are the methods CheckLegalEntity and CheckPerson.

## Findings

| source | as written | input that shows it | evidently intended | confidence | as-written member | corrected member |
|---|---|---|---|---|---|---|
| report/utils.py:226-231 | the header row lists "Unit of Measurement" twice, at columns 19 and 20, and "Reason for Rule Violation" at column 21; the rows hold the unit at 19, the reason at 20 and the note at 21 | any export: column 20, holding the reason, is headed "Unit of Measurement"; column 21, holding the note, is headed "Reason for Rule Violation" | one label per good column: unit, reason, note | medium, not executed | FlatExport.ReasonHeaderOverNotes | FlatExport.CorrectedSheetLabelsGoods |
