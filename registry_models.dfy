/** Records of the customs registry (customs_registry/models.py): the
    polymorphic Violation, products, stored goods, customs points and
    officers, with their display strings and validation rules. */
module RegistryModels {
  import opened Wrappers
  import opened Text

  /** Python truthiness of a model instance's primary key: `None` and 0
      are falsy. */
  predicate HasPk(pk: Option<nat>) {
    pk.Some? && pk.value != 0
  }

  // ---------------------------------------------------------------------
  // Violation kinds
  // ---------------------------------------------------------------------

  const LegalEntityCode: string := "legal entity"
  const IndividualCode: string := "individual"
  const OfficialCode: string := "official"

  /** The three choices of `Violation.violation_type`, and any other stored
      text (the column is a plain character field). */
  datatype Kind = LegalEntity | Individual | Official | Other(code: string)

  function Code(k: Kind): string {
    match k
    case LegalEntity => LegalEntityCode
    case Individual => IndividualCode
    case Official => OfficialCode
    case Other(c) => c
  }

  /** Classifies a stored `violation_type` value. */
  function KindOf(code: string): (k: Kind)
    ensures Code(k) == code
    ensures k.Other? <==> code !in {LegalEntityCode, IndividualCode, OfficialCode}
  {
    if code == LegalEntityCode then LegalEntity
    else if code == IndividualCode then Individual
    else if code == OfficialCode then Official
    else Other(code)
  }

  predicate WellFormedKind(k: Kind) {
    k.Other? ==> k.code !in {LegalEntityCode, IndividualCode, OfficialCode}
  }

  lemma KindOfCode(k: Kind)
    requires WellFormedKind(k)
    ensures KindOf(Code(k)) == k
  {
  }

  /** `violation_type in ['individual', 'official']`. */
  predicate IsPersonCode(code: string) {
    code == IndividualCode || code == OfficialCode
  }

  // ---------------------------------------------------------------------
  // Violation
  // ---------------------------------------------------------------------

  datatype Country = Country(name: string, code: string)

  /** `Country.__str__`: the upper-cased code, a dash and the name. */
  function CountryStr(c: Country): (r: string)
    ensures StartsWith(r, Upper(c.code) + " - ") && EndsWith(r, c.name)
  {
    var r := Upper(c.code) + " - " + c.name;
    assert r[..|Upper(c.code) + " - "|] == Upper(c.code) + " - ";
    r
  }

  /** One row of the Violation table. Company fields apply to a legal
      entity, person fields to an individual or an official. */
  datatype Violation = Violation(
    violationType: string,
    companyName: Option<string>,
    companyBossFullname: Option<string>,
    address: Option<string>,
    phone: Option<string>,
    violatorName: Option<string>,
    violatorSurname: Option<string>,
    fatherName: Option<string>,
    dateOfBirth: Option<Date>,
    placeOfBirth: Option<string>,
    passportNumber: Option<string>,
    passportIssueDate: Option<Date>,
    nationality: Option<Country>,
    violatorAddress: Option<string>)

  /** `Violation.full_name`: name, surname and father name, falsy parts skipped. */
  function FullName(v: Violation): string {
    JoinPresent(" ", [v.violatorName, v.violatorSurname, v.fatherName])
  }

  /** The name `__str__` shows for a person: surname first. */
  function PersonStrName(v: Violation): string {
    JoinPresent(" ", [v.violatorSurname, v.violatorName, v.fatherName])
  }

  /** `Violation.__str__`. The type label is the stored choice (labels are
      not translated in this model). */
  function ViolationStr(v: Violation): string {
    if v.violationType == LegalEntityCode && Truthy(v.companyName) then
      v.violationType + ": " + v.companyName.value
    else if IsPersonCode(v.violationType) then
      var name := PersonStrName(v);
      if name != "" then v.violationType + ": " + name else v.violationType
    else v.violationType
  }

  lemma FullNameAllParts(v: Violation)
    requires Truthy(v.violatorName) && Truthy(v.violatorSurname) && Truthy(v.fatherName)
    ensures FullName(v) == v.violatorName.value + " " + v.violatorSurname.value + " " + v.fatherName.value
  {
    JoinPresentAll(" ", v.violatorName, v.violatorSurname, v.fatherName);
  }

  /** A missing middle part leaves a single space between its neighbours. */
  lemma FullNameSkipsSurname(v: Violation)
    requires Truthy(v.violatorName) && !Truthy(v.violatorSurname) && Truthy(v.fatherName)
    ensures FullName(v) == v.violatorName.value + " " + v.fatherName.value
  {
    PresentOfThree(v.violatorName, v.violatorSurname, v.fatherName);
    JoinOfTwo(" ", v.violatorName.value, v.fatherName.value);
  }

  lemma FullNameEmpty(v: Violation)
    ensures FullName(v) == "" <==>
      !Truthy(v.violatorName) && !Truthy(v.violatorSurname) && !Truthy(v.fatherName)
  {
    var parts := [v.violatorName, v.violatorSurname, v.fatherName];
    PresentOfThree(v.violatorName, v.violatorSurname, v.fatherName);
    JoinOfNonEmptyIsNonEmpty(" ", Present(parts));
  }

  /** `__str__` of a legal entity: "<type>: <company>" when the company name
      is set, the type alone otherwise. */
  lemma ViolationStrLegalEntity(v: Violation)
    requires v.violationType == LegalEntityCode
    ensures Truthy(v.companyName) ==> ViolationStr(v) == "legal entity: " + v.companyName.value
    ensures !Truthy(v.companyName) ==> ViolationStr(v) == "legal entity"
  {
  }

  /** `__str__` of a person lists surname, name, father name, and falls back
      to the type alone when all three are empty. */
  lemma ViolationStrPerson(v: Violation)
    requires IsPersonCode(v.violationType)
    ensures Truthy(v.violatorName) && Truthy(v.violatorSurname) && Truthy(v.fatherName) ==>
      ViolationStr(v) == v.violationType + ": " + v.violatorSurname.value + " "
                         + v.violatorName.value + " " + v.fatherName.value
    ensures !Truthy(v.violatorName) && !Truthy(v.violatorSurname) && !Truthy(v.fatherName) ==>
      ViolationStr(v) == v.violationType
  {
    if Truthy(v.violatorName) && Truthy(v.violatorSurname) && Truthy(v.fatherName) {
      var name := PersonStrName(v);
      JoinPresentAll(" ", v.violatorSurname, v.violatorName, v.fatherName);
      assert name == v.violatorSurname.value + " " + v.violatorName.value + " " + v.fatherName.value;
      assert name != "" by {
        assert |name| >= |v.violatorSurname.value| > 0;
      }
    } else if !Truthy(v.violatorName) && !Truthy(v.violatorSurname) && !Truthy(v.fatherName) {
      JoinPresentNone(" ", v.violatorSurname, v.violatorName, v.fatherName);
    }
  }

  /** Any other type value (including a legal entity with no company name)
      shows as the type alone. */
  lemma ViolationStrOther(v: Violation)
    requires !IsPersonCode(v.violationType)
    requires v.violationType != LegalEntityCode || !Truthy(v.companyName)
    ensures ViolationStr(v) == v.violationType
  {
  }

  /** `full_name` and `__str__` order the parts differently: with the name
      and surname set and no father name, one reads "name surname" and the
      other "surname name". */
  lemma FullNameOrderDiffersFromStr(v: Violation)
    requires Truthy(v.violatorName) && Truthy(v.violatorSurname) && !Truthy(v.fatherName)
    ensures FullName(v) == v.violatorName.value + " " + v.violatorSurname.value
    ensures IsPersonCode(v.violationType) ==>
      ViolationStr(v) == v.violationType + ": " + v.violatorSurname.value + " " + v.violatorName.value
  {
    JoinPresentFirstTwo(" ", v.violatorName, v.violatorSurname, v.fatherName);
    JoinPresentFirstTwo(" ", v.violatorSurname, v.violatorName, v.fatherName);
    var name := PersonStrName(v);
    assert name != "" by {
      assert |name| >= |v.violatorSurname.value| > 0;
    }
  }

  // ---------------------------------------------------------------------
  // Product
  // ---------------------------------------------------------------------

  /** A product row; `save()` rewrites the name in place before storing it. */
  class Product {
    var name: string

    constructor (name: string)
      ensures this.name == name
    {
      this.name := name;
    }

    /** `Product.save`: upper-cases the first character of the name and
        leaves the rest as typed. Storing the row is not modelled. */
    method Save()
      modifies this
      ensures name == UpperFirst(old(name))
    {
      name := UpperFirst(name);
    }
  }

  /** `Product.__str__`. */
  function ProductStr(name: string): string {
    Capitalize(name)
  }

  lemma {:induction false} UpperCharIdempotent(c: char)
    ensures UpperChar(UpperChar(c)) == UpperChar(c)
  {
  }

  /** Saving twice stores the same name as saving once; an empty name
      stays empty. */
  lemma UpperFirstIdempotent(s: string)
    ensures UpperFirst(UpperFirst(s)) == UpperFirst(s)
    ensures UpperFirst(s) == "" <==> s == ""
  {
    if s != "" {
      UpperCharIdempotent(s[0]);
    }
  }

  /** `save()` leaves the lower-cased name that the uniqueness constraint
      compares unchanged, unless the name opens with a folded lower-case
      letter (ı, ſ or µ), whose upper case lower-cases to another letter. */
  lemma {:induction false} LowerOfUpperFirst(s: string)
    ensures Lower(UpperFirst(s)) == Lower(s) <==> s == "" || !IsFoldedLower(s[0])
  {
    if s != "" {
      LowerOfUpper(s[0]);
      assert Lower(UpperFirst(s))[0] == LowerChar(UpperChar(s[0]));
      assert Lower(s)[0] == LowerChar(s[0]);
      if !IsFoldedLower(s[0]) {
        assert Lower(UpperFirst(s))[1..] == Lower(s)[1..];
      }
    }
  }

  /** `__str__` of a saved product equals `__str__` of the name as typed. */
  lemma {:induction false} CapitalizeAfterSave(s: string)
    ensures Capitalize(UpperFirst(s)) == Capitalize(s)
  {
    if s != "" {
      UpperCharIdempotent(s[0]);
    }
  }

  /** `__str__` lower-cases the tail, so it can differ from the stored name. */
  lemma StrDiffersFromStoredName()
    ensures UpperFirst("tV") == "TV" && ProductStr("tV") == "Tv"
  {
    assert UpperChar('t') == 'T' && UpperChar('V') == 'V';
    assert Lower("V") == "v" by { assert LowerChar('V') == 'v'; }
  }

  /** The `Lower('name')` unique constraint over the Product table. */
  predicate ProductNamesUnique(names: seq<string>) {
    forall i, j :: 0 <= i < j < |names| ==> Lower(names[i]) != Lower(names[j])
  }

  /** A new name the constraint lets into the table. */
  predicate AdmitsProductName(names: seq<string>, name: string) {
    forall i :: 0 <= i < |names| ==> Lower(names[i]) != Lower(name)
  }

  lemma InsertProductName(names: seq<string>, name: string)
    ensures ProductNamesUnique(names + [name]) <==>
            ProductNamesUnique(names) && AdmitsProductName(names, name)
  {
    var all := names + [name];
    if ProductNamesUnique(all) {
      forall i | 0 <= i < |names| ensures Lower(names[i]) != Lower(name) {
        assert all[i] == names[i] && all[|names|] == name;
      }
      forall i, j | 0 <= i < j < |names| ensures Lower(names[i]) != Lower(names[j]) {
        assert all[i] == names[i] && all[j] == names[j];
      }
    }
    if ProductNamesUnique(names) && AdmitsProductName(names, name) {
      forall i, j | 0 <= i < j < |all| ensures Lower(all[i]) != Lower(all[j]) {
        if j < |names| {
          assert all[i] == names[i] && all[j] == names[j];
        } else {
          assert all[i] == names[i] && all[j] == name;
        }
      }
    }
  }

  /** Normalising every name with `save()` keeps the table unique exactly
      when it was unique before, as long as no name opens with a folded
      lower-case letter. */
  lemma SavePreservesNameUniqueness(names: seq<string>)
    requires forall i :: 0 <= i < |names| && names[i] != "" ==> !IsFoldedLower(names[i][0])
    ensures var saved := seq(|names|, i requires 0 <= i < |names| => UpperFirst(names[i]));
            ProductNamesUnique(saved) <==> ProductNamesUnique(names)
  {
    var saved := seq(|names|, i requires 0 <= i < |names| => UpperFirst(names[i]));
    forall i | 0 <= i < |names| ensures Lower(saved[i]) == Lower(names[i]) {
      LowerOfUpperFirst(names[i]);
    }
  }

  /** Without that premise saving can break the constraint: "ıa" and "ia"
      differ after lower-casing, but both are stored as "Ia". */
  lemma SaveCanCollideNames()
    ensures ProductNamesUnique([[0x131 as char, 'a'], "ia"])
    ensures UpperFirst([0x131 as char, 'a']) == UpperFirst("ia") == "Ia"
    ensures !ProductNamesUnique([UpperFirst([0x131 as char, 'a']), UpperFirst("ia")])
  {
    DotlessIMeetsI();
    assert Lower([0x131 as char, 'a'])[0] != Lower("ia")[0];
    var saved := [UpperFirst([0x131 as char, 'a']), UpperFirst("ia")];
    assert Lower(saved[0]) == Lower(saved[1]);
  }

  // ---------------------------------------------------------------------
  // StoredGood
  // ---------------------------------------------------------------------

  /** `amount` is a DecimalField(max_digits=12, decimal_places=2), held as
      whole cents. */
  const MaxAmountCents: int := 1_000_000_000_000

  datatype AmountError = BelowMinimum | TooManyDigits | NotPositive

  /** The field's validators: `MinValueValidator(1)` and the digit limit. */
  function AmountFieldErrors(amountCents: int): (errs: seq<AmountError>)
    ensures BelowMinimum in errs <==> amountCents < 100
    ensures TooManyDigits in errs <==> Abs(amountCents) >= MaxAmountCents
    ensures NotPositive !in errs
  {
    (if amountCents < 100 then [BelowMinimum] else [])
    + (if Abs(amountCents) >= MaxAmountCents then [TooManyDigits] else [])
  }

  /** `StoredGood.clean`: raises when the amount is not positive. */
  function CleanStoredGood(amountCents: int): (r: Outcome<AmountError>)
    ensures r.Fail? <==> amountCents <= 0
    ensures r.Fail? ==> r.error == NotPositive
  {
    if amountCents <= 0 then Fail(NotPositive) else Pass
  }

  /** Full model validation: the field validators, then `clean()`. */
  function StoredGoodErrors(amountCents: int): seq<AmountError> {
    AmountFieldErrors(amountCents)
    + (match CleanStoredGood(amountCents) case Fail(e) => [e] case Pass => [])
  }

  /** A stored good validates exactly when its amount is at least 1 and fits
      the column; `clean()` alone would also let amounts in (0, 1) through. */
  lemma StoredGoodAccepted(amountCents: int)
    ensures StoredGoodErrors(amountCents) == [] <==> 100 <= amountCents < MaxAmountCents
    ensures 0 < amountCents < 100 ==>
      CleanStoredGood(amountCents) == Pass && StoredGoodErrors(amountCents) == [BelowMinimum]
  {
  }

  // ---------------------------------------------------------------------
  // CustomsPoint
  // ---------------------------------------------------------------------

  /** A customs point; `id` is `None` until the row is first saved. */
  datatype CustomsPoint = CustomsPoint(id: Option<nat>, office: nat, name: string)

  predicate Clashes(other: CustomsPoint, p: CustomsPoint) {
    other.office == p.office && other.name == p.name && other.id != p.id
  }

  /** `CustomsPoint.clean` against the stored points: fails when another
      row (a different id) has the same office and name. */
  function CleanCustomsPoint(points: seq<CustomsPoint>, p: CustomsPoint): (r: Outcome<string>)
    ensures r.Fail? <==> exists i :: 0 <= i < |points| && Clashes(points[i], p)
  {
    if exists i :: 0 <= i < |points| && Clashes(points[i], p) then
      Fail("A Customs Point with this name already exists in this office.")
    else Pass
  }

  /** Stored rows all have distinct ids. */
  predicate StoredIds(points: seq<CustomsPoint>) {
    (forall i :: 0 <= i < |points| ==> points[i].id.Some?)
    && forall i, j :: 0 <= i < j < |points| ==> points[i].id != points[j].id
  }

  /** The `unique_customsoffice_name` constraint. */
  predicate UniquePerOffice(points: seq<CustomsPoint>) {
    forall i, j :: 0 <= i < j < |points| ==>
      !(points[i].office == points[j].office && points[i].name == points[j].name)
  }

  /** A stored point never clashes with itself: it fails `clean()` exactly
      when another stored point shares its office and name. */
  lemma CleanStoredPoint(points: seq<CustomsPoint>, k: nat)
    requires StoredIds(points) && k < |points|
    ensures CleanCustomsPoint(points, points[k]).Fail? <==>
      exists j :: 0 <= j < |points| && j != k
                  && points[j].office == points[k].office && points[j].name == points[k].name
  {
    var p := points[k];
    if exists j :: 0 <= j < |points| && j != k
                   && points[j].office == p.office && points[j].name == p.name {
      var j :| 0 <= j < |points| && j != k && points[j].office == p.office && points[j].name == p.name;
      assert points[j].id != p.id by {
        if j < k { assert points[j].id != points[k].id; } else { assert points[k].id != points[j].id; }
      }
      assert Clashes(points[j], p);
    }
  }

  /** In a table that satisfies the database constraint, every stored
      point passes `clean()`. */
  lemma UniqueTablePassesClean(points: seq<CustomsPoint>, k: nat)
    requires StoredIds(points) && UniquePerOffice(points) && k < |points|
    ensures CleanCustomsPoint(points, points[k]) == Pass
  {
    CleanStoredPoint(points, k);
    forall j | 0 <= j < |points| && j != k
      ensures !(points[j].office == points[k].office && points[j].name == points[k].name)
    {
      if j < k {
        assert !(points[j].office == points[k].office && points[j].name == points[k].name);
      } else {
        assert !(points[k].office == points[j].office && points[k].name == points[j].name);
      }
    }
  }

  /** A point not yet saved fails `clean()` exactly when a stored point in
      the same office has its name. */
  lemma CleanNewPoint(points: seq<CustomsPoint>, p: CustomsPoint)
    requires StoredIds(points) && p.id == None
    ensures CleanCustomsPoint(points, p).Fail? <==>
      exists i :: 0 <= i < |points| && points[i].office == p.office && points[i].name == p.name
  {
    if exists i :: 0 <= i < |points| && points[i].office == p.office && points[i].name == p.name {
      var i :| 0 <= i < |points| && points[i].office == p.office && points[i].name == p.name;
      assert Clashes(points[i], p);
    }
  }

  // ---------------------------------------------------------------------
  // CustomsOfficer
  // ---------------------------------------------------------------------

  /** An officer; the position and military name are the names of the
      related rows. */
  datatype CustomsOfficer = CustomsOfficer(
    name: string, surname: string, midname: Option<string>,
    position: Option<string>, militaryName: Option<string>)

  /** The text `CustomsOfficer.__str__` strips. */
  function OfficerRawStr(o: CustomsOfficer): string {
    OrEmpty(o.militaryName) + " " + o.surname + " " + o.name + " " + OrEmpty(o.midname)
    + " (" + OrEmpty(o.position) + ")"
  }

  /** `CustomsOfficer.__str__`: military name, surname, name, middle name and
      the position in parentheses; missing parts are empty and only the outer
      whitespace is stripped. */
  function OfficerStr(o: CustomsOfficer): (r: string)
    ensures EndsWith(r, ")")
    ensures r == StripLeft(OfficerRawStr(o))
  {
    var raw := OfficerRawStr(o);
    StripKeepsEnd(raw);
    Strip(raw)
  }

  /** When the military name begins with a visible character nothing is
      stripped, so inner double spaces survive. */
  lemma OfficerStrUnstripped(o: CustomsOfficer)
    requires o.militaryName.Some? && o.militaryName.value != "" && !IsSpace(o.militaryName.value[0])
    ensures OfficerStr(o) == OfficerRawStr(o)
  {
    var raw := OfficerRawStr(o);
    assert raw[0] == o.militaryName.value[0];
  }

  /** An officer with every part empty shows as "()". */
  lemma OfficerStrAllEmpty()
    ensures OfficerStr(CustomsOfficer("", "", None, None, None)) == "()"
  {
    var raw := OfficerRawStr(CustomsOfficer("", "", None, None, None));
    assert raw == "    ()";
    StripLeftSkips(raw, 4);
    assert raw[4..] == "()";
  }
}
